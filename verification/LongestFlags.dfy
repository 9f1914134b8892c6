/** The joined-flag loop with the choice it makes: always the longest flag that the argument starts with. */
module LongestFlags {
  import opened Results
  import opened CliTree
  import opened JoinedFlags
  import opened Traversal

  // ----- the longest flag -----

  /** r is the longest non-empty flag that the argument starts with, if there is one. */
  ghost predicate IsLongest(flags: seq<string>, arg: string, r: Option<string>) {
    match r
    case None => forall f :: f in flags && f <= arg ==> f == ""
    case Some(g) => g in flags && g != "" && g <= arg && forall f :: f in flags && f <= arg ==> |f| <= |g|
  }

  function LongestFlag(flags: seq<string>, arg: string): (r: Option<string>)
    ensures IsLongest(flags, arg, r)
  {
    if flags == [] then None
    else
      var f, r := flags[0], LongestFlag(flags[1..], arg);
      assert forall g :: g in flags <==> g == f || g in flags[1..];
      if f != "" && f <= arg && (r.None? || |f| >= |r.value|) then Some(f) else r
  }

  /** There is one longest flag: of one length the argument has one prefix. */
  lemma LongestIsUnique(flags: seq<string>, arg: string, r: Option<string>, r': Option<string>)
    requires IsLongest(flags, arg, r) && IsLongest(flags, arg, r')
    ensures r == r'
  {
    if r.Some? && r'.Some? { assert r.value == arg[..|r.value|] && r'.value == arg[..|r'.value|]; }
  }

  /** The first n characters as the best match so far; none for n = 0. */
  function Best(arg: string, n: nat): Option<string>
    requires n <= |arg|
  {
    if n == 0 then None else Some(arg[..n])
  }

  /** str::longest_prefix_match: the length of the longest match, flag by flag. */
  method LongestPrefixMatch(arg: string, flags: seq<string>) returns (n: nat)
    ensures n <= |arg| && LongestFlag(flags, arg) == Best(arg, n)
  {
    n := 0;
    for i := 0 to |flags|
      invariant n <= |arg| && IsLongest(flags[..i], arg, Best(arg, n))
    {
      assert flags[..i + 1] == flags[..i] + [flags[i]];
      if flags[i] <= arg && |flags[i]| > n {
        n := |flags[i]|;
        assert arg[..n] == flags[i];
      }
    }
    assert flags[..|flags|] == flags;
    LongestIsUnique(flags, arg, LongestFlag(flags, arg), Best(arg, n));
  }

  /** parameter::match: the whole argument if it is a flag, else the longest matching prefix. */
  method Match(flags: seq<string>, arg: string) returns (n: nat)
    ensures n <= |arg| && LongestFlag(flags, arg) == Best(arg, n)
  {
    if arg == "" {
      return 0;
    }
    if arg in flags {
      LongestIsUnique(flags, arg, LongestFlag(flags, arg), Some(arg));
      assert arg[..|arg|] == arg;
      return |arg|;
    }
    n := LongestPrefixMatch(arg, flags);
  }

  /** The flags of a list of nodes, without what lies under them. */
  function FlagsIn(nodes: seq<Node>): seq<string> {
    if nodes == [] then [] else (if nodes[0].Param? then nodes[0].flags else []) + FlagsIn(nodes[1..])
  }

  lemma {:induction false} FlagsInBoth(a: seq<Node>, b: seq<Node>)
    ensures FlagsIn(a + b) == FlagsIn(a) + FlagsIn(b)
  {
    if a == [] {
      assert a + b == b;
    } else {
      FlagsInBoth(a[1..], b);
      assert (a + b)[1..] == a[1..] + b;
    }
  }

  /** Pre-order meets all flags, in the order in which the groups list them. */
  lemma {:induction false} FlagsInPreOrder(ns: seq<Node>)
    ensures FlagsIn(PreOrder(ns)) == AllFlags(ns)
    decreases ns
  {
    if ns != [] {
      var n := ns[0];
      FlagsInBoth(Visit(n), PreOrder(ns[1..]));
      FlagsInPreOrder(ns[1..]);
      if n.Group? {
        FlagsInPreOrder(n.children);
        assert Visit(n)[1..] == PreOrder(n.children);
      } else {
        assert Visit(n) == [n] && [n][1..] == [];
      }
    }
  }

  lemma LongestOfBoth(a: seq<string>, b: seq<string>, arg: string, n: nat, m: nat)
    requires n <= |arg| && m <= |arg|
    requires IsLongest(a, arg, Best(arg, n))
    requires IsLongest(b, arg, Best(arg, m))
    ensures var k := if m > n then m else n; IsLongest(a + b, arg, Best(arg, k))
  {
    assert forall f :: f in a + b <==> f in a || f in b;
  }

  /**
   * detail::longest_prefix_match over a group whose parameters all stay
   * reachable: the traversal finds the longest of all flags.
   */
  method LongestMatch(root: Node, arg: string) returns (r: Option<string>)
    requires root.Group? && NoEmptyGroups(root.children)
    ensures r == LongestFlag(AllFlags(root.children), arg)
  {
    var n: nat := 0;
    var pos := new Traverser(root);
    ghost var all, seen := AllFlags(root.children), [];
    StartRemaining(root, pos.stack);
    FlagsInPreOrder(root.children);
    while pos.stack != []
      invariant Good(pos.stack) && seen + FlagsIn(Remaining(pos.stack)) == all
      invariant n <= |arg| && IsLongest(seen, arg, Best(arg, n))
      decreases |Remaining(pos.stack)|
    {
      var node := Current(pos.stack);
      NextDropsOne(pos.stack);
      ghost var later := Remaining(pos.stack)[1..];
      HeadFlags(seen, Remaining(pos.stack), node);
      if node.Param? {
        var m := Match(node.flags, arg);
        LongestOfBoth(seen, node.flags, arg, n, m);
        seen := seen + node.flags;
        n := if m > n then m else n;
        if m > 0 && m == |arg| {
          WholeIsLongest(all, seen, FlagsIn(later), arg);
          return Some(arg);
        }
      }
      pos.Increment();
    }
    r := Best(arg, n);
    assert seen == all;
    LongestIsUnique(all, arg, LongestFlag(all, arg), r);
  }

  lemma {:induction false} HeadFlags(seen: seq<string>, nodes: seq<Node>, node: Node)
    requires nodes != [] && nodes[0] == node
    ensures seen + FlagsIn(nodes) == (if node.Param? then seen + node.flags else seen) + FlagsIn(nodes[1..])
  {
  }

  lemma {:induction false} WholeIsLongest(all: seq<string>, seen: seq<string>, later: seq<string>, arg: string)
    requires all == seen + later && arg != "" && IsLongest(seen, arg, Best(arg, |arg|))
    ensures LongestFlag(all, arg) == Some(arg)
  {
    assert arg[..|arg|] == arg;
    LongestIsUnique(all, arg, LongestFlag(all, arg), Some(arg));
  }

  /** The matcher of the loop when every parameter stays reachable: always the longest flag. */
  function Longest(flags: seq<string>): (seq<string>, string) -> Option<string> {
    (done, arg) => LongestFlag(flags, arg)
  }

  lemma LongestIsSound(flags: seq<string>)
    ensures Sound(flags, Longest(flags))
  {
  }

  /** Where the prefix is itself a flag, the longest match passes it. */
  lemma LongestPassesFlag(flags: seq<string>, prefix: string)
    requires prefix in flags
    ensures PassesPrefix(prefix, Longest(flags))
  {
    forall arg | LongestFlag(flags, arg).Some? && prefix <= arg && LongestFlag(flags, arg).value <= prefix
      ensures LongestFlag(flags, arg).value == prefix
    {
      assert |prefix| <= |LongestFlag(flags, arg).value|;
    }
  }

  predicate Over(alphabet: set<char>, text: string) { forall c :: c in text ==> c in alphabet }

  predicate Unused(c: char, flags: seq<string>, prefix: string) {
    c !in prefix && forall f :: f in flags ==> c !in f
  }

  /** The loop that takes the longest flag ends for every argument over the alphabet. */
  ghost predicate LongestEnds(flags: seq<string>, prefix: string, alphabet: set<char>) {
    forall arg :: Over(alphabet, arg) ==> Ends(prefix, Longest(flags), arg)
  }

  lemma {:induction false} LongestEndsIf(flags: seq<string>, prefix: string, alphabet: set<char>)
    requires NoFlagInside(flags, prefix) || prefix in flags
    ensures LongestEnds(flags, prefix, alphabet)
  {
    LongestIsSound(flags);
    if NoFlagInside(flags, prefix) {
      NoneInsidePasses(flags, prefix, Longest(flags));
    } else {
      LongestPassesFlag(flags, prefix);
    }
    forall arg | Over(alphabet, arg) ensures Ends(prefix, Longest(flags), arg) {
      EndsInTwicePerCharacter(flags, prefix, Longest(flags), [], arg, arg, false, 2 * |arg|);
    }
  }

  /** A flag lies inside the prefix, which is none, and the character is in neither. */
  ghost predicate Stuck(flags: seq<string>, prefix: string, c: char) {
    prefix !in flags && !NoFlagInside(flags, prefix) && Unused(c, flags, prefix)
  }

  /** The argument starts with the prefix and ends in the character. */
  predicate Holds(prefix: string, arg: string, c: char) { prefix <= arg && arg != "" && arg[|arg| - 1] == c }

  /** In such an argument a flag is found, but not all of it taken. */
  lemma {:induction false} FoundWithin(flags: seq<string>, prefix: string, arg: string, c: char)
    requires Stuck(flags, prefix, c) && Holds(prefix, arg, c)
    ensures LongestFlag(flags, arg).Some? && |LongestFlag(flags, arg).value| < |arg|
  {
    var g :| g in flags && g != "" && g <= prefix && g != prefix;
    assert g <= arg;
    var f := LongestFlag(flags, arg).value;
    assert c !in f;
    if |f| == |arg| {
      LastIn(f, arg);
      assert false;
    }
  }

  lemma RestHolds(prefix: string, arg: string, f: string, c: char)
    requires Holds(prefix, arg, c) && f <= arg && |f| < |arg| && f != prefix
    ensures Holds(prefix, Rest(prefix, arg, f), c)
  {
    var rest := arg[|f|..];
    assert rest[|rest| - 1] == c;
  }

  lemma LastIn(f: string, arg: string)
    requires f <= arg && |f| == |arg| && arg != ""
    ensures arg[|arg| - 1] in f
  {
    assert f[|arg| - 1] == arg[|arg| - 1];
  }

  /** A pass that matches leaves it to the others whether the loop ends. */
  lemma {:induction false} EndsWithinStep(prefix: string, matcher: (seq<string>, string) -> Option<string>,
        matches: seq<string>, arg: string, f: string, n: nat)
    requires arg != "" && matcher(matches, arg) == Some(f) && f <= arg
    ensures EndsWithin(prefix, matcher, matches, arg, n) <==>
            n > 0 && EndsWithin(prefix, matcher, matches + [f], Rest(prefix, arg, f), n - 1)
  {
  }

  lemma {:induction false} StuckNeverEnds(flags: seq<string>, prefix: string, matches: seq<string>, arg: string,
        c: char, n: nat)
    requires Stuck(flags, prefix, c) && Holds(prefix, arg, c)
    ensures !EndsWithin(prefix, Longest(flags), matches, arg, n)
    decreases n
  {
    FoundWithin(flags, prefix, arg, c);
    var f := LongestFlag(flags, arg).value;
    RestHolds(prefix, arg, f, c);
    EndsWithinStep(prefix, Longest(flags), matches, arg, f, n);
    if n > 0 { StuckNeverEnds(flags, prefix, matches + [f], Rest(prefix, arg, f), c, n - 1); }
  }

  /**
   * The loop as it is, which takes the longest flag: as long as the flags leave
   * some character of the alphabet unused, it ends for every argument if and
   * only if no non-empty flag is a proper part of the prefix or the prefix is
   * itself a flag.
   */
  lemma {:induction false} LongestEndsIff(flags: seq<string>, prefix: string, alphabet: set<char>, c: char)
    requires c in alphabet && Unused(c, flags, prefix) && Over(alphabet, prefix)
    ensures LongestEnds(flags, prefix, alphabet) <==> NoFlagInside(flags, prefix) || prefix in flags
  {
    if NoFlagInside(flags, prefix) || prefix in flags {
      LongestEndsIf(flags, prefix, alphabet);
    } else {
      var arg := prefix + [c];
      forall n: nat ensures !EndsWithin(prefix, Longest(flags), [], arg, n) {
        StuckNeverEnds(flags, prefix, [], arg, c, n);
      }
      assert Over(alphabet, arg) && !Ends(prefix, Longest(flags), arg);
    }
  }

  // ----- flags that go on from the prefix with every character -----

  /** For every character of the alphabet, the prefix followed by it is a flag; the prefix itself is none. */
  ghost predicate GoesOn(flags: seq<string>, prefix: string, alphabet: set<char>) {
    && prefix != "" && prefix !in flags && Over(alphabet, prefix)
    && forall c :: c in alphabet ==> prefix + [c] in flags
  }

  /** What is left behind a match, where the prefix is no flag. */
  function Onward(prefix: string, rest: string): string {
    if rest == "" || prefix <= rest then rest else prefix + rest
  }

  lemma {:induction false} OneMore(prefix: string, flags: seq<string>, matches: seq<string>, arg: string, f: string,
        rest: string, n: nat)
    requires LongestFlag(flags, arg) == Some(f) && rest == arg[|f|..] && f != prefix && prefix != "" && n > 0
    requires EndsWithin(prefix, Longest(flags), matches + [f], Onward(prefix, rest), n - 1)
    ensures EndsWithin(prefix, Longest(flags), matches, arg, n)
  {
    assert Rest(prefix, arg, f) == Onward(prefix, rest);
    EndsWithinStep(prefix, Longest(flags), matches, arg, f, n);
  }

  /** The passes that an argument may take which is the prefix followed by t. */
  function Passes(prefix: string, t: string): nat { if t == "" then |prefix| else |t| }

  lemma OverSuffix(alphabet: set<char>, text: string, k: nat)
    requires Over(alphabet, text) && k <= |text|
    ensures Over(alphabet, text[k..])
  {
    forall c | c in text[k..] ensures c in text {
      var i :| 0 <= i < |text[k..]| && text[k..][i] == c;
      assert text[k + i] == c;
    }
  }

  /** More than the prefix is taken of an argument that goes on behind it. */
  lemma {:induction false} TakesMore(flags: seq<string>, prefix: string, alphabet: set<char>, t: string, arg: string)
    requires GoesOn(flags, prefix, alphabet) && Over(alphabet, t) && t != "" && arg == prefix + t
    ensures LongestFlag(flags, arg).Some?
    ensures var f := LongestFlag(flags, arg).value; |prefix| < |f| <= |arg| && arg[|f|..] == t[|f| - |prefix|..]
  {
    var g := prefix + [t[0]];
    assert t[0] in t && g in flags && g <= arg;
    assert |g| <= |LongestFlag(flags, arg).value|;
  }

  lemma {:induction false} NoMatchEnds(prefix: string, flags: seq<string>, matches: seq<string>, arg: string, n: nat)
    requires arg == "" || LongestFlag(flags, arg) == None
    ensures EndsWithin(prefix, Longest(flags), matches, arg, n)
  {
    assert Longest(flags)(matches, arg) == LongestFlag(flags, arg);
  }

  /** One pass that takes f, and what follows it. */
  lemma {:induction false} TakesAndEnds(flags: seq<string>, prefix: string, alphabet: set<char>, matches: seq<string>,
        arg: string, f: string, rest: string, n: nat)
    requires GoesOn(flags, prefix, alphabet) && Over(alphabet, rest) && |rest| < n
    requires LongestFlag(flags, arg) == Some(f) && rest == arg[|f|..]
    ensures EndsWithin(prefix, Longest(flags), matches, arg, n)
    decreases n, 0
  {
    LeftEnds(flags, prefix, alphabet, matches + [f], rest, n - 1);
    OneMore(prefix, flags, matches, arg, f, rest, n);
  }

  /** From an argument that starts with the prefix, the loop ends. */
  lemma {:induction false} GoesOnEnds(flags: seq<string>, prefix: string, alphabet: set<char>, matches: seq<string>,
        t: string, arg: string, n: nat)
    requires GoesOn(flags, prefix, alphabet) && Over(alphabet, t) && arg == prefix + t && n >= Passes(prefix, t)
    ensures EndsWithin(prefix, Longest(flags), matches, arg, n)
    decreases n, 1
  {
    if t != "" { TakesMore(flags, prefix, alphabet, t, arg); }
    if LongestFlag(flags, arg) == None {
      NoMatchEnds(prefix, flags, matches, arg, n);
    } else {
      var f := LongestFlag(flags, arg).value;
      RestOver(prefix, t, arg, alphabet, |f|);
      TakesAndEnds(flags, prefix, alphabet, matches, arg, f, arg[|f|..], n);
    }
  }

  lemma RestOver(prefix: string, t: string, arg: string, alphabet: set<char>, k: nat)
    requires Over(alphabet, prefix) && Over(alphabet, t) && arg == prefix + t && k <= |arg|
    ensures Over(alphabet, arg[k..])
  {
    OverSuffix(alphabet, arg, k);
  }

  /** What is left behind a match ends, or starts with the prefix. */
  lemma {:induction false} LeftEnds(flags: seq<string>, prefix: string, alphabet: set<char>, matches: seq<string>,
        rest: string, n: nat)
    requires GoesOn(flags, prefix, alphabet) && Over(alphabet, rest) && |rest| <= n
    ensures EndsWithin(prefix, Longest(flags), matches, Onward(prefix, rest), n)
    decreases n, 2
  {
    if rest == "" {
      NoMatchEnds(prefix, flags, matches, rest, n);
    } else if prefix <= rest {
      assert rest == prefix + rest[|prefix|..];
      OverSuffix(alphabet, rest, |prefix|);
      GoesOnEnds(flags, prefix, alphabet, matches, rest[|prefix|..], rest, n);
    } else {
      GoesOnEnds(flags, prefix, alphabet, matches, rest, prefix + rest, n);
    }
  }

  /** Flags that go on from the prefix with every character consume any argument, though one may lie inside it. */
  lemma {:induction false} GoesOnAlwaysEnds(flags: seq<string>, prefix: string, alphabet: set<char>)
    requires GoesOn(flags, prefix, alphabet)
    ensures LongestEnds(flags, prefix, alphabet)
  {
    forall arg | Over(alphabet, arg) ensures Ends(prefix, Longest(flags), arg) {
      StartsAndEnds(flags, prefix, alphabet, arg, |arg| + 1);
    }
  }

  lemma {:induction false} StartsAndEnds(flags: seq<string>, prefix: string, alphabet: set<char>, arg: string, n: nat)
    requires GoesOn(flags, prefix, alphabet) && Over(alphabet, arg) && n > |arg|
    ensures EndsWithin(prefix, Longest(flags), [], arg, n)
  {
    if arg == "" || LongestFlag(flags, arg) == None {
      NoMatchEnds(prefix, flags, [], arg, n);
    } else {
      var f := LongestFlag(flags, arg).value;
      OverSuffix(alphabet, arg, |f|);
      TakesAndEnds(flags, prefix, alphabet, [], arg, f, arg[|f|..], n);
    }
  }

  /** So the condition on unused characters is needed: over a and b, flags a, aaa and aab with prefix aa. */
  lemma UsedUpAlphabetCanEnd()
    ensures var flags, alphabet := ["a", "aaa", "aab"], {'a', 'b'};
      && !NoFlagInside(flags, "aa") && "aa" !in flags
      && GoesOn(flags, "aa", alphabet) && LongestEnds(flags, "aa", alphabet)
  {
    var flags, prefix, alphabet := ["a", "aaa", "aab"], "aa", {'a', 'b'};
    var f := flags[0];
    assert |f| == 1 && f in flags && f <= prefix && f != prefix;
    assert |flags[1]| == 3 && |flags[2]| == 3;
    assert prefix + ['a'] == flags[1] && prefix + ['b'] == flags[2];
    GoesOnAlwaysEnds(flags, prefix, alphabet);
  }

  // ----- characters of eight bits -----

  function Characters(text: string): set<char> { set c | c in text }

  function FirstChars(n: nat): (r: set<char>)
    requires n <= 256
    ensures |r| == n && forall c: char :: c in r <==> c as int < n
  {
    if n == 0 then {} else FirstChars(n - 1) + {(n - 1) as char}
  }

  lemma SomeUnused(text: string) returns (c: char)
    requires |Characters(text)| < 256
    ensures c in FirstChars(256) && c !in text
  {
    if FirstChars(256) <= Characters(text) {
      SubsetIsSmaller(FirstChars(256), Characters(text));
      assert false;
    }
    c :| c in FirstChars(256) && c !in Characters(text);
  }

  lemma {:induction false} SubsetIsSmaller<T>(a: set<T>, b: set<T>)
    requires a <= b
    ensures |a| <= |b|
  {
    if a != {} {
      var x :| x in a;
      SubsetIsSmaller(a - {x}, b - {x});
    }
  }

  lemma {:induction false} InConcat(parts: seq<string>, f: string, c: char)
    requires f in parts && c in f
    ensures c in Concat(parts)
  {
    var n := |parts| - 1;
    if f != parts[n] {
      assert f in parts[..n];
      InConcat(parts[..n], f, c);
    }
  }

  /** For arguments of 8-bit characters: flags that do not use all 256 of them. */
  lemma {:induction false} LongestEndsIffBytes(flags: seq<string>, prefix: string)
    requires |Characters(Concat(flags) + prefix)| < 256 && Over(FirstChars(256), prefix)
    ensures LongestEnds(flags, prefix, FirstChars(256)) <==> NoFlagInside(flags, prefix) || prefix in flags
  {
    var c := SomeUnused(Concat(flags) + prefix);
    forall f | f in flags ensures c !in f {
      if c in f {
        InConcat(flags, f, c);
        assert false;
      }
    }
    LongestEndsIff(flags, prefix, FirstChars(256), c);
  }

  // ----- an instance -----

  /** With flags --a, --b and x, - the common prefix is "--": no flag, but "-" lies inside it. */
  lemma UncoveredNeverEnds()
    ensures forall n: nat :: !EndsWithin("--", Longest(AllFlags(Uncovered())), [], "--c", n)
  {
    FlagsOfUncovered();
    var flags := ["--a", "--b", "x", "-"];
    var f := flags[3];
    assert |f| == 1 && f in flags && f <= "--" && f != "--";
    forall f | f in flags ensures f != "--" && 'c' !in f {
      assert f == flags[0] || f == flags[1] || f == flags[2] || f == flags[3];
    }
    forall n: nat ensures !EndsWithin("--", Longest(flags), [], "--c", n) {
      StuckNeverEnds(flags, "--", [], "--c", 'c', n);
    }
  }

  // ----- one-letter flags -----

  /** Every flag is the prefix and one more character, which does not begin the prefix. */
  ghost predicate OneLetter(flags: seq<string>, prefix: string) {
    prefix != "" && forall f :: f in flags ==> |f| == |prefix| + 1 && prefix <= f && f[|prefix|] != prefix[0]
  }

  /** At the front of the prefix and more text only the flag of its first letter is found. */
  lemma {:induction false} FirstLetter(flags: seq<string>, prefix: string, text: string, arg: string)
    requires OneLetter(flags, prefix) && text != "" && arg == prefix + text
    ensures LongestFlag(flags, arg) == if prefix + [text[0]] in flags then Some(prefix + [text[0]]) else None
  {
    forall f | f in flags && f <= arg ensures f == prefix + [text[0]] {
      assert f == arg[..|prefix| + 1];
    }
    if prefix + [text[0]] in flags {
      assert prefix + [text[0]] <= arg;
      LongestIsUnique(flags, arg, LongestFlag(flags, arg), Some(prefix + [text[0]]));
    }
  }

  /** Behind a matched letter the prefix is put before the rest of the text. */
  lemma RestOfLetters(prefix: string, text: string, arg: string)
    requires prefix != "" && text != "" && arg == prefix + text
    requires |text| > 1 ==> text[1] != prefix[0]
    ensures prefix + [text[0]] <= arg
    ensures Rest(prefix, arg, prefix + [text[0]]) == if |text| == 1 then "" else prefix + text[1..]
  {
    assert arg[|prefix| + 1..] == text[1..];
  }

  /** The argument when the first i letters have been taken. */
  function FromLetter(prefix: string, text: string, i: nat): string
    requires i <= |text|
  {
    if i == |text| then "" else prefix + text[i..]
  }

  /** One pass takes one letter. */
  lemma {:induction false} LetterStep(flags: seq<string>, prefix: string, text: string, j: nat, arg: string, f: string)
    requires OneLetter(flags, prefix) && forall k :: 0 <= k < |text| ==> text[k] != prefix[0]
    requires j < |text| && arg == FromLetter(prefix, text, j) && LongestFlag(flags, arg) == Some(f) && f <= arg
    ensures f == prefix + [text[j]] && f in flags && Rest(prefix, arg, f) == FromLetter(prefix, text, j + 1)
  {
    FirstLetter(flags, prefix, text[j..], arg);
    RestOfLetters(prefix, text[j..], arg);
    assert text[j..][1..] == text[j + 1..];
  }

  /** The loop takes one letter after the other. */
  lemma {:induction false} LettersInOrder(flags: seq<string>, prefix: string, text: string, matches: seq<string>,
        args: seq<string>, i: nat)
    requires OneLetter(flags, prefix) && forall k :: 0 <= k < |text| ==> text[k] != prefix[0]
    requires Follows(prefix, Longest(flags), FromLetter(prefix, text, 0), matches, args) && i <= |matches|
    ensures i <= |text| && args[i] == FromLetter(prefix, text, i)
    ensures forall k :: 0 <= k < i ==> matches[k] == prefix + [text[k]] && matches[k] in flags
  {
    if i > 0 {
      var j := i - 1;
      LettersInOrder(flags, prefix, text, matches, args, j);
      assert Passed(prefix, Longest(flags), matches, j, args[j], args[j + 1]);
      LetterStep(flags, prefix, text, j, args[j], matches[j]);
    }
  }

  /**
   * What joined flags are for: the prefix followed by letters is used up exactly
   * when every letter has its flag, and then the matches are these flags, one
   * for each letter, in order.
   */
  lemma {:induction false} JoinedLetters(flags: seq<string>, prefix: string, text: string, matches: seq<string>,
        args: seq<string>)
    requires OneLetter(flags, prefix) && text != "" && forall k :: 0 <= k < |text| ==> text[k] != prefix[0]
    requires Follows(prefix, Longest(flags), prefix + text, matches, args)
    requires Stops(Longest(flags), matches, args[|matches|])
    ensures args[|matches|] == "" <==> forall k :: 0 <= k < |text| ==> prefix + [text[k]] in flags
    ensures args[|matches|] == "" ==>
      |matches| == |text| && forall k :: 0 <= k < |text| ==> matches[k] == prefix + [text[k]]
  {
    var n := |matches|;
    assert text[0..] == text;
    LettersInOrder(flags, prefix, text, matches, args, n);
    if n < |text| {
      FirstLetter(flags, prefix, text[n..], args[n]);
      assert Longest(flags)(matches, args[n]) == LongestFlag(flags, args[n]);
      assert text[n..][0] == text[n];
    } else {
      forall k | 0 <= k < |text| ensures prefix + [text[k]] in flags {
        assert matches[k] in flags;
      }
    }
  }

  /** The loop ends for such flags. */
  lemma OneLetterPasses(flags: seq<string>, prefix: string)
    requires OneLetter(flags, prefix)
    ensures Sound(flags, Longest(flags)) && PassesPrefix(prefix, Longest(flags))
  {
    LongestIsSound(flags);
    NoneInsidePasses(flags, prefix, Longest(flags));
  }
}
