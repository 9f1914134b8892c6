/** Matching one argument as several joined flags, such as "-ab" for "-a" and "-b". */
module JoinedFlags {
  import opened Results
  import opened CliTree

  // ----- longest common prefixes -----

  ghost predicate CommonPrefix(p: string, strs: seq<string>) {
    forall k :: 0 <= k < |strs| ==> p <= strs[k]
  }

  function CommonOfTwo(a: string, b: string): string {
    if a == [] || b == [] || a[0] != b[0] then [] else [a[0]] + CommonOfTwo(a[1..], b[1..])
  }

  lemma {:induction false} CommonOfTwoIsLongest(a: string, b: string, p: string)
    ensures CommonOfTwo(a, b) <= a && CommonOfTwo(a, b) <= b
    ensures p <= a && p <= b ==> p <= CommonOfTwo(a, b)
  {
    if a != [] && b != [] && a[0] == b[0] {
      CommonOfTwoIsLongest(a[1..], b[1..], if p == [] then [] else p[1..]);
      assert a == [a[0]] + a[1..] && b == [b[0]] + b[1..];
      if p != [] && p <= a && p <= b {
        assert p == [p[0]] + p[1..] && p[0] == a[0];
        assert p[1..] <= a[1..] && p[1..] <= b[1..];
      }
    }
  }

  function LongestCommon(strs: seq<string>): string {
    if |strs| == 0 then ""
    else if |strs| == 1 then strs[0]
    else CommonOfTwo(strs[0], LongestCommon(strs[1..]))
  }

  /** It is a common prefix, and every common prefix is a prefix of it. */
  lemma {:induction false} LongestCommonIsLongest(strs: seq<string>, p: string)
    requires strs != []
    ensures CommonPrefix(LongestCommon(strs), strs)
    ensures CommonPrefix(p, strs) ==> p <= LongestCommon(strs)
  {
    if |strs| > 1 {
      LongestCommonIsLongest(strs[1..], p);
      CommonOfTwoIsLongest(strs[0], LongestCommon(strs[1..]), p);
      var r := LongestCommon(strs);
      forall k | 0 <= k < |strs| ensures r <= strs[k] {
        if k > 0 { assert LongestCommon(strs[1..]) <= strs[1..][k - 1]; }
      }
      if CommonPrefix(p, strs) {
        assert forall k :: 0 <= k < |strs[1..]| ==> p <= strs[1..][k];
      }
    }
  }

  /** str::longest_common_prefix: character by character until a mismatch. */
  method LongestCommonPrefix(strs: seq<string>) returns (r: string)
    ensures r == LongestCommon(strs)
  {
    if |strs| < 1 {
      return "";
    }
    if |strs| == 1 {
      return strs[0];
    }
    var m := |strs[0]|;
    for j := 1 to |strs|
      invariant forall k :: 0 <= k < j ==> m <= |strs[k]|
      invariant exists k :: 0 <= k < |strs| && m == |strs[k]|
    {
      if |strs[j]| < m {
        m := |strs[j]|;
      }
    }
    for i := 0 to m
      invariant CommonPrefix(strs[0][..i], strs)
    {
      for j := 1 to |strs|
        invariant forall k :: 0 <= k < j ==> strs[k][i] == strs[0][i]
      {
        if strs[j][i] != strs[j - 1][i] {
          MismatchEnds(strs, i, j);
          return strs[0][..i];
        }
      }
      forall k | 0 <= k < |strs| ensures strs[0][..i + 1] <= strs[k] {
        assert strs[0][..i] <= strs[k];
      }
    }
    ShortestEnds(strs, m);
    return strs[0][..m];
  }

  /** Where two strings differ, every common prefix has ended. */
  lemma {:induction false} MismatchEnds(strs: seq<string>, i: nat, j: nat)
    requires 0 < j < |strs| && (forall k :: 0 <= k < |strs| ==> i < |strs[k]|)
    requires strs[j][i] != strs[j - 1][i] && CommonPrefix(strs[0][..i], strs)
    ensures strs[0][..i] == LongestCommon(strs)
  {
    var r := LongestCommon(strs);
    LongestCommonIsLongest(strs, strs[0][..i]);
    assert r <= strs[j] && r <= strs[j - 1];
    NoLonger(r, strs[j], strs[j - 1], i);
    assert r <= strs[0] && strs[0][..i] <= r;
  }

  lemma NoLonger(r: string, a: string, b: string, i: nat)
    requires r <= a && r <= b && i < |a| && i < |b| && a[i] != b[i]
    ensures |r| <= i
  {
    assert r == a[..|r|] && r == b[..|r|];
  }

  /** No common prefix is longer than the shortest string. */
  lemma {:induction false} ShortestEnds(strs: seq<string>, m: nat)
    requires strs != [] && m <= |strs[0]| && (exists k :: 0 <= k < |strs| && m == |strs[k]|)
    requires CommonPrefix(strs[0][..m], strs)
    ensures strs[0][..m] == LongestCommon(strs)
  {
    LongestCommonIsLongest(strs, strs[0][..m]);
    var k :| 0 <= k < |strs| && m == |strs[k]|;
    assert LongestCommon(strs) <= strs[k];
  }

  // ----- the common prefix of the flags of a group -----

  function AllFlags(ns: seq<Node>): seq<string>
    decreases ns
  {
    if ns == [] then []
    else
      (match ns[0]
        case Group(children, _) => AllFlags(children)
        case Param(_, _, _, flags) => flags) + AllFlags(ns[1..])
  }

  /** The non-empty prefixes of the parameters; a parameter whose own flags share nothing contributes none. */
  function Prefixes(ns: seq<Node>): seq<string>
    decreases ns
  {
    if ns == [] then []
    else (match ns[0]
          case Group(children, _) => Prefixes(children)
          case Param(_, _, _, flags) =>
            if flags != [] && LongestCommon(flags) != "" then [LongestCommon(flags)] else [])
         + Prefixes(ns[1..])
  }

  function CommonFlagPrefix(ns: seq<Node>): string { LongestCommon(Prefixes(ns)) }

  /** What the next node contributes. */
  function OwnPart(n: Node): seq<string> {
    match n
    case Group(children, _) => Prefixes(children)
    case Param(_, _, _, flags) => if flags != [] && LongestCommon(flags) != "" then [LongestCommon(flags)] else []
  }

  lemma PrefixesFrom(ns: seq<Node>, i: nat)
    requires i < |ns|
    ensures Prefixes(ns[i..]) == OwnPart(ns[i]) + Prefixes(ns[i + 1..])
  {
    assert ns[i..][0] == ns[i] && ns[i..][1..] == ns[i + 1..];
  }

  method GatherPrefixes(ns: seq<Node>, all: seq<string>) returns (r: seq<string>)
    ensures r == all + Prefixes(ns)
    decreases ns, 1
  {
    r := all;
    for i := 0 to |ns|
      invariant r + Prefixes(ns[i..]) == all + Prefixes(ns)
    {
      PrefixesFrom(ns, i);
      RegroupLists(r, OwnPart(ns[i]), Prefixes(ns[i + 1..]));
      r := GatherOwn(ns[i], r);
    }
  }

  /** What one node of the loop adds. */
  method GatherOwn(n: Node, all: seq<string>) returns (r: seq<string>)
    ensures r == all + OwnPart(n)
    decreases n, 0
  {
    r := all;
    match n {
      case Group(children, _) =>
        r := GatherPrefixes(children, r);
      case Param(_, _, _, flags) =>
        if flags != [] {
          var pfx := LongestCommonPrefix(flags);
          if pfx != "" {
            r := r + [pfx];
          }
        }
    }
  }

  lemma RegroupLists<T>(a: seq<T>, b: seq<T>, c: seq<T>)
    ensures a + (b + c) == (a + b) + c
  {
  }

  /** Every parameter that has flags has a non-empty prefix of its own. */
  ghost predicate OwnPrefixes(ns: seq<Node>)
    decreases ns
  {
    ns == [] ||
    ((match ns[0]
        case Group(children, _) => OwnPrefixes(children)
        case Param(_, _, _, flags) => flags == [] || LongestCommon(flags) != "")
     && OwnPrefixes(ns[1..]))
  }

  ghost predicate Covers(p: string, flags: seq<string>) {
    forall f :: f in flags ==> p <= f
  }

  lemma {:induction false} PrefixesReachFlags(ns: seq<Node>, p: string)
    requires OwnPrefixes(ns) && (forall q :: q in Prefixes(ns) ==> p <= q)
    ensures Covers(p, AllFlags(ns))
    decreases ns
  {
    if ns != [] {
      var first := match ns[0]
        case Group(children, _) => Prefixes(children)
        case Param(_, _, _, flags) => if flags != [] && LongestCommon(flags) != "" then [LongestCommon(flags)] else [];
      assert Prefixes(ns) == first + Prefixes(ns[1..]);
      assert forall q :: q in first ==> q in Prefixes(ns);
      assert forall q :: q in Prefixes(ns[1..]) ==> q in Prefixes(ns);
      match ns[0] {
        case Group(children, _) =>
          PrefixesReachFlags(children, p);
        case Param(_, _, _, flags) =>
          if flags != [] {
            LongestCommonIsLongest(flags, p);
            assert LongestCommon(flags) in first;
          }
      }
      PrefixesReachFlags(ns[1..], p);
    }
  }

  lemma {:induction false} CoveringNeedsOwnPrefixes(ns: seq<Node>, p: string)
    requires p != "" && Covers(p, AllFlags(ns))
    ensures OwnPrefixes(ns)
    decreases ns
  {
    if ns != [] {
      var first := match ns[0] case Group(children, _) => AllFlags(children) case Param(_, _, _, flags) => flags;
      assert AllFlags(ns) == first + AllFlags(ns[1..]);
      assert forall f :: f in first ==> f in AllFlags(ns);
      assert forall f :: f in AllFlags(ns[1..]) ==> f in AllFlags(ns);
      match ns[0] {
        case Group(children, _) =>
          CoveringNeedsOwnPrefixes(children, p);
        case Param(_, _, _, flags) =>
          if flags != [] {
            assert forall k :: 0 <= k < |flags| ==> flags[k] in first;
            LongestCommonIsLongest(flags, p);
          }
      }
      CoveringNeedsOwnPrefixes(ns[1..], p);
    }
  }

  /**
   * The "common flag prefix" is a prefix of every flag exactly when it is empty
   * or no parameter was left out for sharing no prefix among its own flags.
   */
  lemma {:induction false} CommonFlagPrefixCoversIff(ns: seq<Node>)
    ensures Covers(CommonFlagPrefix(ns), AllFlags(ns)) <==> CommonFlagPrefix(ns) == "" || OwnPrefixes(ns)
  {
    var p, ps := CommonFlagPrefix(ns), Prefixes(ns);
    if OwnPrefixes(ns) {
      if ps != [] { LongestCommonIsLongest(ps, p); }
      assert forall q :: q in ps ==> p <= q;
      PrefixesReachFlags(ns, p);
    }
    if p != "" && Covers(p, AllFlags(ns)) {
      CoveringNeedsOwnPrefixes(ns, p);
    }
  }

  // ----- the matching loop -----

  /** What is left to match after f has been matched at the front of arg. */
  function Rest(prefix: string, arg: string, f: string): string
    requires f <= arg
  {
    var rest := arg[|f|..];
    if rest != "" && prefix != "" && !(prefix <= rest) && prefix != f then prefix + rest else rest
  }

  /** Re-inserting a prefix that all flags share still leaves less to match. */
  lemma RestIsShorter(prefix: string, arg: string, f: string)
    requires f != "" && f <= arg && prefix <= f
    ensures |Rest(prefix, arg, f)| < |arg|
  {
  }

  function Concat(parts: seq<string>): string {
    if parts == [] then "" else Concat(parts[..|parts| - 1]) + parts[|parts| - 1]
  }

  /** The matcher answers with a non-empty flag of the group that the argument starts with, or not at all. */
  ghost predicate Sound(flags: seq<string>, matcher: (seq<string>, string) -> Option<string>) {
    forall done, arg :: matcher(done, arg).Some? ==>
      matcher(done, arg).value in flags && matcher(done, arg).value != "" && matcher(done, arg).value <= arg
  }

  /** A match is its part of the argument, with the prefix in front of it where that was re-inserted. */
  ghost predicate Explains(prefix: string, matches: seq<string>, parts: seq<string>) {
    |matches| == |parts| && forall i :: 0 <= i < |matches| ==> matches[i] == parts[i] || matches[i] == prefix + parts[i]
  }

  /** No non-empty flag is a proper part of the prefix, from its front. */
  ghost predicate NoFlagInside(flags: seq<string>, prefix: string) {
    forall f :: f in flags && f != "" && f <= prefix ==> f == prefix
  }

  /** A match in an argument that starts with the prefix is no proper part of the prefix. */
  ghost predicate PassesPrefix(prefix: string, matcher: (seq<string>, string) -> Option<string>) {
    forall done, arg :: matcher(done, arg).Some? && prefix <= arg && matcher(done, arg).value <= prefix ==>
      matcher(done, arg).value == prefix
  }

  lemma NoneInsidePasses(flags: seq<string>, prefix: string, matcher: (seq<string>, string) -> Option<string>)
    requires Sound(flags, matcher) && NoFlagInside(flags, prefix)
    ensures PassesPrefix(prefix, matcher)
  {
  }

  /** A prefix that all flags share has none inside. */
  lemma CoveringHasNoneInside(flags: seq<string>, prefix: string)
    requires Covers(prefix, flags)
    ensures NoFlagInside(flags, prefix)
  {
  }

  /**
   * The loop has been through these arguments: the first is the given one, each
   * match is the parser's answer to its argument, and the next argument is what
   * that leaves, with the prefix in front where it is put back.
   */
  ghost predicate Follows(prefix: string, matcher: (seq<string>, string) -> Option<string>, arg0: string,
        matches: seq<string>, args: seq<string>) {
    && |args| == |matches| + 1 && args[0] == arg0
    && forall i :: 0 <= i < |matches| ==> Passed(prefix, matcher, matches, i, args[i], args[i + 1])
  }

  ghost predicate Passed(prefix: string, matcher: (seq<string>, string) -> Option<string>, matches: seq<string>,
        i: nat, arg: string, next: string)
    requires i < |matches|
  {
    && arg != "" && matcher(matches[..i], arg) == Some(matches[i]) && matches[i] <= arg
    && next == Rest(prefix, arg, matches[i])
  }

  /** The loop stops where the argument is used up or the parser finds nothing in it. */
  ghost predicate Stops(matcher: (seq<string>, string) -> Option<string>, matches: seq<string>, arg: string) {
    arg == "" || matcher(matches, arg).None?
  }

  lemma {:induction false} FollowsOn(prefix: string, matcher: (seq<string>, string) -> Option<string>, arg0: string,
        matches: seq<string>, args: seq<string>, f: string)
    requires Follows(prefix, matcher, arg0, matches, args)
    requires var arg := args[|matches|]; arg != "" && matcher(matches, arg) == Some(f) && f <= arg
    ensures Follows(prefix, matcher, arg0, matches + [f], args + [Rest(prefix, args[|matches|], f)])
  {
    var more, next := matches + [f], args + [Rest(prefix, args[|matches|], f)];
    forall i | 0 <= i < |more| ensures Passed(prefix, matcher, more, i, next[i], next[i + 1]) {
      if i < |matches| {
        assert Passed(prefix, matcher, matches, i, args[i], args[i + 1]);
        assert more[..i] == matches[..i];
      } else {
        assert more[..i] == matches;
      }
    }
  }

  /**
   * try_match_joined, for whatever flag the parser finds next: the loop
   * terminates when no match in an argument that starts with the prefix is a
   * proper part of it. It succeeds exactly when the parser has no complaint and
   * the argument, not empty, is used up; otherwise the parser found nothing in
   * what is left. The matches, less re-inserted prefixes, are the argument up to
   * what is left.
   */
  method TryMatchJoined(flags: seq<string>, prefix: string, arg0: string,
                        matcher: (seq<string>, string) -> Option<string>, clean: bool)
    returns (ok: bool, matches: seq<string>, ghost parts: seq<string>, ghost args: seq<string>, ghost left: string)
    requires Sound(flags, matcher) && PassesPrefix(prefix, matcher)
    ensures ok ==> matches != [] && clean && Explains(prefix, matches, parts) && Concat(parts) == arg0
    ensures ok && prefix == "" ==> Concat(matches) == arg0
    ensures arg0 == "" ==> !ok
    ensures |matches| <= 2 * |arg0|
    ensures Follows(prefix, matcher, arg0, matches, args) && Stops(matcher, matches, args[|matches|])
    ensures ok <==> arg0 != "" && clean && args[|matches|] == ""
    ensures Explains(prefix, matches, parts) && Concat(parts) + left == arg0
    ensures args[|matches|] == left || (args[|matches|] == prefix + left && left != "")
    ensures !ok ==> arg0 == "" || !clean || (left != "" && matcher(matches, args[|matches|]).None?)
  {
    var arg := arg0;
    matches, parts, args, left := [], [], [arg0], arg0;
    ghost var inserted := false;
    while arg != ""
      invariant arg == (if inserted then prefix else "") + left && (inserted ==> left != "")
      invariant Explains(prefix, matches, parts) && Concat(parts) + left == arg0
      invariant Follows(prefix, matcher, arg0, matches, args) && args[|matches|] == arg
      invariant |matches| + 2 * |left| + (if inserted then 1 else 0) <= 2 * |arg0|
      invariant matches == [] ==> arg == arg0
      decreases |left|, inserted
    {
      var found := matcher(matches, arg);
      if found.None? {
        return false, matches, parts, args, left;
      }
      var f := found.value;
      ghost var part;
      ghost var rest := Rest(prefix, arg, f);
      FollowsOn(prefix, matcher, arg0, matches, args, f);
      part, left, inserted := Pass(prefix, arg, f, left, inserted, matches, parts, arg0);
      arg := arg[|f|..];
      matches, parts, args := matches + [f], parts + [part], args + [rest];
      // the prefix is always present after the first match
      if arg != "" && prefix != "" && !(prefix <= arg) && prefix != f {
        arg := prefix + arg;
      }
      assert arg == rest;
    }
    ok := matches != [] && clean;
    if prefix == "" {
      assert forall i :: 0 <= i < |matches| ==> matches[i] == parts[i];
      assert matches == parts;
    }
  }

  /** A match takes its own part of the argument, and only a match of the re-inserted prefix itself takes none. */
  lemma PartOfArgument(prefix: string, arg: string, f: string, left: string, inserted: bool)
    requires f != "" && f <= arg && (inserted && f <= prefix ==> f == prefix)
    requires arg == (if inserted then prefix else "") + left
    ensures inserted ==> prefix <= f
    ensures var part := if inserted then f[|prefix|..] else f;
      && part <= left && left == part + left[|part|..] && arg[|f|..] == left[|part|..]
      && (f == part || f == prefix + part) && (part == "" ==> inserted && f == prefix)
  {
    if inserted { OnePrefixesOther(prefix, f, arg); }
  }

  /** Of two prefixes of one string, one is a prefix of the other. */
  lemma OnePrefixesOther(a: string, b: string, s: string)
    requires a <= s && b <= s
    ensures a <= b || b <= a
  {
    assert a == s[..|a|] && b == s[..|b|];
  }

  /** One pass: the match takes its part of what is left, and everything matched so far still explains the argument. */
  lemma {:induction false} Pass(prefix: string, arg: string, f: string, left: string, inserted: bool,
        matches: seq<string>, parts: seq<string>, arg0: string)
    returns (part: string, left': string, inserted': bool)
    requires f != "" && f <= arg && (inserted && f <= prefix ==> f == prefix)
    requires arg == (if inserted then prefix else "") + left
    requires Explains(prefix, matches, parts) && Concat(parts) + left == arg0
    ensures Rest(prefix, arg, f) == (if inserted' then prefix else "") + left' && (inserted' ==> left' != "")
    ensures |left'| < |left| || (left' == left && inserted && !inserted')
    ensures Explains(prefix, matches + [f], parts + [part]) && Concat(parts + [part]) + left' == arg0
  {
    PartOfArgument(prefix, arg, f, left, inserted);
    part := if inserted then f[|prefix|..] else f;
    Explained(prefix, matches, parts, f, part);
    left', inserted' := LeftAfter(prefix, arg, f, left, inserted);
    ConcatSnoc(parts, part);
    Regroup(Concat(parts), part, left[|part|..]);
  }

  lemma Explained(prefix: string, matches: seq<string>, parts: seq<string>, f: string, part: string)
    requires Explains(prefix, matches, parts) && (f == part || f == prefix + part)
    ensures Explains(prefix, matches + [f], parts + [part])
  {
  }

  lemma Regroup(a: string, b: string, c: string)
    ensures (a + b) + c == a + (b + c)
  {
  }

  lemma {:induction false} ConcatSnoc(parts: seq<string>, part: string)
    ensures Concat(parts + [part]) == Concat(parts) + part
  {
    assert (parts + [part])[..|parts|] == parts;
  }

  // ----- exactly when the loop ends -----

  /** The loop, started with these matches and this argument, ends within n passes. */
  predicate EndsWithin(prefix: string, matcher: (seq<string>, string) -> Option<string>, matches: seq<string>,
        arg: string, n: nat)
    decreases n
  {
    arg == "" ||
      var found := matcher(matches, arg);
      found.None? || !(found.value <= arg) ||
        (n > 0 && EndsWithin(prefix, matcher, matches + [found.value], Rest(prefix, arg, found.value), n - 1))
  }

  /** For every argument and every way to find the next flag, the loop ends. */
  ghost predicate AlwaysEnds(flags: seq<string>, prefix: string) {
    forall matcher: (seq<string>, string) -> Option<string>, arg: string ::
      Sound(flags, matcher) ==> Ends(prefix, matcher, arg)
  }

  ghost predicate Ends(prefix: string, matcher: (seq<string>, string) -> Option<string>, arg: string) {
    exists n: nat :: EndsWithin(prefix, matcher, [], arg, n)
  }

  /**
   * A pass either takes something of the argument or drops the re-inserted
   * prefix: two passes for each character will do.
   */
  lemma {:induction false} EndsInTwicePerCharacter(flags: seq<string>, prefix: string,
        matcher: (seq<string>, string) -> Option<string>, matches: seq<string>, arg: string,
        left: string, inserted: bool, n: nat)
    requires Sound(flags, matcher) && PassesPrefix(prefix, matcher)
    requires arg == (if inserted then prefix else "") + left && (inserted ==> left != "")
    requires n >= 2 * |left| + if inserted then 1 else 0
    ensures EndsWithin(prefix, matcher, matches, arg, n)
    decreases n
  {
    if arg != "" && matcher(matches, arg).Some? {
      var f := matcher(matches, arg).value;
      var left', inserted' := LeftAfter(prefix, arg, f, left, inserted);
      EndsInTwicePerCharacter(flags, prefix, matcher, matches + [f], Rest(prefix, arg, f), left', inserted', n - 1);
      OnePassMore(prefix, matcher, matches, arg, f, n);
    }
  }

  lemma {:induction false} OnePassMore(prefix: string, matcher: (seq<string>, string) -> Option<string>,
        matches: seq<string>, arg: string, f: string, n: nat)
    requires matcher(matches, arg) == Some(f) && f <= arg && n > 0
    requires EndsWithin(prefix, matcher, matches + [f], Rest(prefix, arg, f), n - 1)
    ensures EndsWithin(prefix, matcher, matches, arg, n)
  {
  }

  /** What is left of the original argument after a match, and whether the prefix has been put before it. */
  lemma LeftAfter(prefix: string, arg: string, f: string, left: string, inserted: bool)
    returns (left': string, inserted': bool)
    requires f != "" && f <= arg && (inserted && f <= prefix ==> f == prefix)
    requires arg == (if inserted then prefix else "") + left
    ensures Rest(prefix, arg, f) == (if inserted' then prefix else "") + left'
    ensures inserted' ==> left' != ""
    ensures |left'| < |left| || (left' == left && inserted && !inserted')
    ensures left' == arg[|f|..]
  {
    PartOfArgument(prefix, arg, f, left, inserted);
    left' := arg[|f|..];
    inserted' := left' != "" && prefix != "" && !(prefix <= left') && prefix != f;
  }

  /** A flag that is a proper part of the prefix matches again and again. */
  lemma InsideMatchesAgain(prefix: string, arg: string, f: string)
    requires f != "" && f <= prefix && f != prefix && f <= arg && |arg| > |f|
    ensures var r := Rest(prefix, arg, f); f <= r && |r| > |f|
  {
  }

  lemma {:induction false} NeverEnds(prefix: string, f: string, matches: seq<string>, arg: string, n: nat)
    requires f != "" && f <= prefix && f != prefix && f <= arg && |arg| > |f|
    ensures !EndsWithin(prefix, Only(f), matches, arg, n)
    decreases n
  {
    InsideMatchesAgain(prefix, arg, f);
    if n > 0 {
      NeverEnds(prefix, f, matches + [f], Rest(prefix, arg, f), n - 1);
    }
  }

  /** The matcher that knows one flag only. */
  function Only(f: string): (seq<string>, string) -> Option<string> {
    (done, arg) => if f != "" && f <= arg then Some(f) else None
  }

  /**
   * The loop ends, for every argument and every way to find the next flag, if
   * and only if no non-empty flag is a proper part of the prefix.
   */
  lemma {:induction false} AlwaysEndsIff(flags: seq<string>, prefix: string)
    ensures AlwaysEnds(flags, prefix) <==> NoFlagInside(flags, prefix)
  {
    if NoFlagInside(flags, prefix) {
      forall matcher: (seq<string>, string) -> Option<string>, arg: string | Sound(flags, matcher)
        ensures Ends(prefix, matcher, arg)
      {
        NoneInsidePasses(flags, prefix, matcher);
        EndsInTwicePerCharacter(flags, prefix, matcher, [], arg, arg, false, 2 * |arg|);
      }
    } else {
      var f :| f in flags && f != "" && f <= prefix && f != prefix;
      assert Sound(flags, Only(f));
      forall n: nat ensures !EndsWithin(prefix, Only(f), [], f + f, n) {
        NeverEnds(prefix, f, [], f + f, n);
      }
      assert !Ends(prefix, Only(f), f + f);
    }
  }

  /** For the prefix of the group itself it suffices that every parameter with flags has a prefix of its own. */
  lemma {:induction false} OwnPrefixesAlwaysEnd(ns: seq<Node>)
    requires OwnPrefixes(ns)
    ensures AlwaysEnds(AllFlags(ns), CommonFlagPrefix(ns))
  {
    CommonFlagPrefixCoversIff(ns);
    CoveringHasNoneInside(AllFlags(ns), CommonFlagPrefix(ns));
    AlwaysEndsIff(AllFlags(ns), CommonFlagPrefix(ns));
  }

  /** A group in which the second parameter's flags share no prefix: the common prefix is that of the first alone. */
  function Uncovered(): seq<Node> {
    [Param(0, true, false, ["--a", "--b"]), Param(1, true, false, ["x", "-"])]
  }

  lemma FlagsOfUncovered()
    ensures AllFlags(Uncovered()) == ["--a", "--b", "x", "-"]
  {
    var b := Param(1, true, false, ["x", "-"]);
    assert Uncovered()[1..] == [b] && [b][1..] == [];
    assert AllFlags([b]) == ["x", "-"] + AllFlags([]);
  }

  lemma PrefixesOfUncovered()
    ensures Prefixes(Uncovered()) == ["--"]
  {
    var a, b := Param(0, true, false, ["--a", "--b"]), Param(1, true, false, ["x", "-"]);
    assert Uncovered()[1..] == [b] && [b][1..] == [];
    assert ["--a", "--b"][1..] == ["--b"] && ["x", "-"][1..] == ["-"];
    var x, y := "--a", "--b";
    assert x[1..] == "-a" && y[1..] == "-b" && "-a"[1..] == "a" && "-b"[1..] == "b";
    assert CommonOfTwo("a", "b") == "";
    assert CommonOfTwo("-a", "-b") == "-";
    assert LongestCommon(a.flags) == "--";
    assert LongestCommon(b.flags) == "";
    assert Prefixes([b]) == [];
  }

  /**
   * When some parameter's flags share no prefix, the group's common prefix
   * need not cover them, and one of them can be a proper part of it: with
   * flags --a, --b and x, -, the flag "-" turns "--x" into "---x" and that
   * back into "--x".
   */
  lemma UncoveredPrefixCanCycle()
    ensures CommonFlagPrefix(Uncovered()) == "--" && "-" in AllFlags(Uncovered())
    ensures !Covers("--", AllFlags(Uncovered())) && !NoFlagInside(AllFlags(Uncovered()), "--")
    ensures Rest("--", "--x", "-") == "---x" && Rest("--", "---x", "-") == "--x"
  {
    PrefixesOfUncovered();
    FlagsOfUncovered();
    InsideUncovered(AllFlags(Uncovered()), "--");
    Cycle("--", "-", "x");
  }

  lemma InsideUncovered(flags: seq<string>, prefix: string)
    requires flags == ["--a", "--b", "x", "-"] && prefix == "--"
    ensures "-" in flags && !Covers(prefix, flags) && !NoFlagInside(flags, prefix)
  {
    var x, f := flags[2], flags[3];
    assert |x| == 1 && x in flags && !(prefix <= x);
    assert |f| == 1 && f in flags && f <= prefix && f != prefix;
  }

  lemma Cycle(prefix: string, f: string, x: string)
    requires prefix == f + f && f == "-" && x == "x"
    ensures Rest(prefix, prefix + x, f) == prefix + (f + x) && Rest(prefix, prefix + (f + x), f) == prefix + x
    ensures prefix + x == "--x" && prefix + (f + x) == "---x"
  {
    var once, twice := prefix + x, prefix + (f + x);
    assert once[1..] == f + x && twice[1..] == prefix + x;
    assert (f + x)[1] == 'x' && !(prefix <= f + x);
  }
}
