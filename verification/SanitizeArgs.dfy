/** clipp's sanitize_args: numbers torn apart at the decimal point are put together again. */
module Sanitizing {
  import opened RowQueues

  predicate IsDigit(c: char) { '0' <= c <= '9' }

  /** Looks like the fraction of a number. */
  predicate Dotted(s: string) { |s| > 1 && s[0] == '.' && IsDigit(s[1]) }

  /** Where the trailing digits begin. */
  function FirstDigit(s: string): (f: nat)
    ensures f <= |s| && (forall k :: f <= k < |s| ==> IsDigit(s[k])) && (f > 0 ==> !IsDigit(s[f - 1]))
  {
    if s != [] && IsDigit(s[|s| - 1]) then FirstDigit(s[..|s| - 1]) else |s|
  }

  /** Where the trailing digits begin, with their sign if they have one. */
  function TailStart(s: string): (p: nat)
    ensures p <= |s| && (p < |s| ==> s[p] != '.')
  {
    var f := FirstDigit(s);
    if f > 0 && (s[f - 1] == '+' || s[f - 1] == '-') then f - 1 else f
  }

  /** Argument i takes the trailing number of its predecessor. */
  function Step(args: seq<string>, i: nat): (r: seq<string>)
    requires 0 < i < |args|
    ensures |r| == |args|
  {
    if Dotted(args[i]) then
      var prv, p := args[i - 1], TailStart(args[i - 1]);
      args[i - 1 := prv[..p]][i := prv[p..] + args[i]]
    else args
  }

  /** The arguments after steps 1 to n - 1. */
  function Sanitized(args: seq<string>, n: nat): (r: seq<string>)
    requires n <= |args|
    ensures |r| == |args|
  {
    if n <= 1 then args else Step(Sanitized(args, n - 1), n - 1)
  }

  /** Finds the trailing digits and their sign, from the end backwards. */
  method FindTail(prv: string) returns (fstDigit: nat)
    ensures fstDigit == TailStart(prv)
  {
    fstDigit := |prv|;
    assert prv[..|prv|] == prv;
    while fstDigit > 0 && IsDigit(prv[fstDigit - 1])
      invariant fstDigit <= |prv| && FirstDigit(prv[..fstDigit]) == FirstDigit(prv)
    {
      assert prv[..fstDigit][..fstDigit - 1] == prv[..fstDigit - 1];
      fstDigit := fstDigit - 1;
    }
    if fstDigit > 0 && (prv[fstDigit - 1] == '+' || prv[fstDigit - 1] == '-') {
      fstDigit := fstDigit - 1;
    }
  }

  method SanitizeArgs(args: array<string>)
    modifies args
    ensures args[..] == Sanitized(old(args[..]), args.Length)
  {
    if args.Length == 0 {
      return;
    }
    for i := 1 to args.Length
      invariant args[..] == Sanitized(old(args[..]), i)
    {
      if |args[i]| > 1 && args[i][0] == '.' && IsDigit(args[i][1]) {
        var prv := args[i - 1];
        var fstDigit := FindTail(prv);
        args[i] := prv[fstDigit..] + args[i];
        args[i - 1] := prv[..fstDigit];
      }
    }
  }

  // ----- nothing is inserted or deleted -----

  lemma {:induction false} PairJoin(args: seq<string>, i: nat, a: string, b: string)
    requires 0 < i < |args| && a + b == args[i - 1] + args[i]
    ensures Flatten(args[i - 1 := a][i := b]) == Flatten(args)
  {
    var changed := args[i - 1 := a][i := b];
    FlattenSplit(args, i - 1);
    FlattenSplit(changed, i - 1);
    assert changed[..i - 1] == args[..i - 1];
    TwoJoin(args[i - 1..], a, b);
    assert changed[i - 1..] == args[i - 1..][0 := a][1 := b];
  }

  lemma TwoJoin(args: seq<string>, a: string, b: string)
    requires |args| >= 2 && a + b == args[0] + args[1]
    ensures Flatten(args[0 := a][1 := b]) == Flatten(args)
  {
    var changed := args[0 := a][1 := b];
    var rest := Flatten(args[1..][1..]);
    assert changed[1..][1..] == args[1..][1..] && changed[0] == a && changed[1..][0] == b;
    assert Flatten(changed) == a + (b + rest) == (a + b) + rest;
    assert Flatten(args) == args[0] + (args[1] + rest) == (args[0] + args[1]) + rest;
  }

  /** The concatenation of all arguments stays the same, for every argument list. */
  lemma {:induction false} SameCharacters(args: seq<string>, n: nat)
    requires n <= |args|
    ensures Flatten(Sanitized(args, n)) == Flatten(args)
  {
    if n > 1 {
      SameCharacters(args, n - 1);
      var before, i := Sanitized(args, n - 1), n - 1;
      if Dotted(before[i]) {
        var prv, p := before[i - 1], TailStart(before[i - 1]);
        assert prv[..p] + (prv[p..] + before[i]) == prv + before[i];
        PairJoin(before, i, prv[..p], prv[p..] + before[i]);
      }
    }
  }

  // ----- once is enough -----

  /** Step i has nothing to do. */
  predicate Settled(args: seq<string>, i: nat)
    requires 0 < i < |args|
  {
    Dotted(args[i]) ==> TailStart(args[i - 1]) == |args[i - 1]|
  }

  lemma NothingMoves(args: seq<string>, i: nat)
    requires 0 < i < |args| && TailStart(args[i - 1]) == |args[i - 1]|
    ensures Step(args, i) == args
  {
    var prv := args[i - 1];
    assert prv[..|prv|] == prv && prv[|prv|..] + args[i] == args[i];
  }

  lemma SettledIffFixed(args: seq<string>, i: nat)
    requires 0 < i < |args|
    ensures Settled(args, i) <==> Step(args, i) == args
  {
    if Dotted(args[i]) {
      assert |Step(args, i)[i - 1]| == TailStart(args[i - 1]);
      if Settled(args, i) { NothingMoves(args, i); }
    }
  }

  lemma StepSettles(args: seq<string>, i: nat)
    requires 0 < i < |args| && forall k :: 0 < k < i ==> Settled(args, k)
    ensures forall k :: 0 < k <= i ==> Settled(Step(args, i), k)
  {
    var r := Step(args, i);
    if Dotted(args[i]) {
      var prv, p := args[i - 1], TailStart(args[i - 1]);
      assert Dotted(r[i - 1]) ==> Dotted(prv);
      if p < |prv| {
        assert r[i][0] == prv[p];
      } else {
        NothingMoves(args, i);
      }
      forall k | 0 < k < i ensures Settled(r, k) {
        assert Settled(args, k);
      }
    }
  }

  lemma {:induction false} SanitizedSettles(args: seq<string>, n: nat)
    requires n <= |args|
    ensures forall k :: 0 < k < n ==> Settled(Sanitized(args, n), k)
  {
    if n > 1 {
      SanitizedSettles(args, n - 1);
      StepSettles(Sanitized(args, n - 1), n - 1);
    }
  }

  lemma {:induction false} SettledIsFixed(args: seq<string>, n: nat)
    requires n <= |args| && forall k :: 0 < k < n ==> Settled(args, k)
    ensures Sanitized(args, n) == args
  {
    if n > 1 {
      SettledIsFixed(args, n - 1);
      SettledIffFixed(args, n - 1);
    }
  }

  /** Sanitizing sanitized arguments changes nothing. */
  lemma {:induction false} Idempotent(args: seq<string>)
    ensures Sanitized(Sanitized(args, |args|), |args|) == Sanitized(args, |args|)
  {
    SanitizedSettles(args, |args|);
    SettledIsFixed(Sanitized(args, |args|), |args|);
  }

  // ----- what is moved -----

  /** From k on the text is a number's beginning: all trailing digits, with the sign before them if there is one. */
  ghost predicate IsTail(s: string, k: nat) {
    exists f :: k <= f <= |s| && TailFrom(s, k, f)
  }

  ghost predicate TailFrom(s: string, k: nat, f: nat)
    requires k <= f <= |s|
  {
    && (forall j :: f <= j < |s| ==> '0' <= s[j] <= '9') && (f > 0 ==> !('0' <= s[f - 1] <= '9'))
    && if f > 0 && (s[f - 1] == '+' || s[f - 1] == '-') then k == f - 1 else k == f
  }

  lemma TailStartIsTail(s: string)
    ensures IsTail(s, TailStart(s))
  {
    assert TailFrom(s, TailStart(s), FirstDigit(s));
  }

  /** A point followed by a digit begins the argument. */
  predicate BeginsWithPoint(s: string) { |s| > 1 && s[0] == '.' && '0' <= s[1] <= '9' }

  /** What an argument gets from the one before it. */
  function Part(before: string, arg: string): string {
    if BeginsWithPoint(arg) then before[TailStart(before)..] else ""
  }

  /** What every argument gets. */
  ghost predicate Parts(args: seq<string>, moved: seq<string>) {
    && |moved| == |args| + 1 && moved[0] == "" && moved[|args|] == ""
    && forall i :: 0 < i < |args| ==> moved[i] == Part(moved[i - 1] + args[i - 1], args[i])
  }

  lemma {:induction false} PartsUpTo(args: seq<string>, n: nat) returns (moved: seq<string>)
    requires n < |args|
    ensures |moved| == n + 1 && moved[0] == ""
    ensures forall i :: 0 < i <= n ==> moved[i] == Part(moved[i - 1] + args[i - 1], args[i])
  {
    if n == 0 {
      moved := [""];
    } else {
      var before := PartsUpTo(args, n - 1);
      moved := before + [Part(before[n - 1] + args[n - 1], args[n])];
    }
  }

  /**
   * Each argument that begins with a point gets the beginning of a number that
   * ends what the argument before it then is, each other one gets nothing, and
   * all keep what they do not give away.
   */
  ghost predicate MovesNumbers(args: seq<string>, r: seq<string>, moved: seq<string>) {
    && |r| == |args| && |moved| == |args| + 1 && moved[0] == "" && moved[|args|] == ""
    && (forall i :: 0 <= i < |args| ==> r[i] + moved[i + 1] == moved[i] + args[i])
    && (forall i :: 0 < i < |args| ==> IsMoved(moved[i - 1] + args[i - 1], args[i], moved[i]))
  }

  ghost predicate IsMoved(before: string, arg: string, moved: string) {
    if BeginsWithPoint(arg) then exists k :: 0 <= k <= |before| && IsTail(before, k) && moved == before[k..]
    else moved == ""
  }

  lemma PartIsMoved(before: string, arg: string)
    ensures IsMoved(before, arg, Part(before, arg))
  {
    TailStartIsTail(before);
  }

  /** After n steps: the arguments before the last one looked at are final, that one has got its part. */
  ghost predicate SteppedTo(args: seq<string>, moved: seq<string>, r: seq<string>, n: nat)
    requires 0 < n <= |args| < |moved|
  {
    && |r| == |args|
    && (forall i :: 0 <= i < n - 1 ==> r[i] + moved[i + 1] == moved[i] + args[i])
    && r[n - 1] == moved[n - 1] + args[n - 1]
    && (forall i :: n <= i < |args| ==> r[i] == args[i])
  }

  /** What one step does to a pair of arguments. */
  lemma PairMoves(prv: string, arg: string, a: string, b: string)
    requires a == if Dotted(arg) then prv[..TailStart(prv)] else prv
    requires b == if Dotted(arg) then prv[TailStart(prv)..] + arg else arg
    ensures a + Part(prv, arg) == prv && b == Part(prv, arg) + arg
  {
    assert Dotted(arg) <==> BeginsWithPoint(arg);
    assert prv[..TailStart(prv)] + prv[TailStart(prv)..] == prv;
    assert prv + "" == prv && "" + arg == arg;
  }

  lemma {:induction false} StepMoves(args: seq<string>, moved: seq<string>, r: seq<string>, n: nat)
    requires 0 < n < |args| && Parts(args, moved) && SteppedTo(args, moved, r, n)
    ensures SteppedTo(args, moved, Step(r, n), n + 1)
  {
    var r' := Step(r, n);
    PairMoves(r[n - 1], args[n], r'[n - 1], r'[n]);
    forall i | 0 <= i < n ensures r'[i] + moved[i + 1] == moved[i] + args[i] {
      if i < n - 1 { assert r'[i] == r[i]; }
    }
  }

  lemma {:induction false} StepsMove(args: seq<string>, moved: seq<string>, n: nat)
    requires 0 < n <= |args| && Parts(args, moved)
    ensures SteppedTo(args, moved, Sanitized(args, n), n)
  {
    if n > 1 {
      StepsMove(args, moved, n - 1);
      StepMoves(args, moved, Sanitized(args, n - 1), n - 1);
    } else {
      assert "" + args[0] == args[0];
    }
  }

  /** What sanitizing moves, exactly. */
  lemma {:induction false} SanitizedMoves(args: seq<string>) returns (moved: seq<string>)
    ensures MovesNumbers(args, Sanitized(args, |args|), moved)
  {
    if args == [] {
      moved := [""];
    } else {
      moved := PartsUpTo(args, |args| - 1);
      moved := moved + [""];
      StepsMove(args, moved, |args|);
      LastKeeps(Sanitized(args, |args|)[|args| - 1]);
      forall i | 0 < i < |args| ensures IsMoved(moved[i - 1] + args[i - 1], args[i], moved[i]) {
        PartIsMoved(moved[i - 1] + args[i - 1], args[i]);
      }
    }
  }

  lemma LastKeeps(s: string)
    ensures s + "" == s
  {
  }
}
