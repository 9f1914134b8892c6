/** Splitting a name at the last occurrence of a separator. */
module Splitting {
  import opened Results

  /** sep stands in s at position i. */
  predicate At(s: string, sep: string, i: nat) {
    i + |sep| <= |s| && s[i..i + |sep|] == sep
  }

  /** std::string::rfind, from position i downwards. */
  function RFindFrom(s: string, sep: string, i: nat): Option<nat> {
    if At(s, sep, i) then Some(i) else if i == 0 then None else RFindFrom(s, sep, i - 1)
  }

  function RFind(s: string, sep: string): Option<nat> { RFindFrom(s, sep, |s|) }

  lemma {:induction false} RFindIsLast(s: string, sep: string, i: nat)
    ensures var r := RFindFrom(s, sep, i);
      && (r.Some? ==> r.value <= i && At(s, sep, r.value) && forall j :: r.value < j <= i ==> !At(s, sep, j))
      && (r.None? ==> forall j :: 0 <= j <= i ==> !At(s, sep, j))
  {
    if !At(s, sep, i) && i > 0 { RFindIsLast(s, sep, i - 1); }
  }

  /** A name cut in two. */
  datatype Parts = Parts(prefix: string, suffix: string)

  /** `parts` of the writer: the suffix starts one character behind the separator's first, whatever its length. */
  function Split(name: string, sep: string): Option<Parts>
    requires sep != ""
  {
    var i := RFind(name, sep);
    if i.None? then None
    else if i.value + 1 <= |name| then Some(Parts(name[..i.value], name[i.value + 1..]))
    else None
  }

  /** Prefix and suffix determine the name. */
  lemma SplitInjective(a: string, b: string, sep: string)
    requires sep != "" && Split(a, sep).Some? && Split(a, sep) == Split(b, sep)
    ensures a == b
  {
    RFindIsLast(a, sep, |a|);
    RFindIsLast(b, sep, |b|);
    var i := RFind(a, sep).value;
    assert |Split(a, sep).value.prefix| == i && |Split(b, sep).value.prefix| == RFind(b, sep).value;
    assert a[i..i + |sep|][0] == a[i] && b[i..i + |sep|][0] == b[i];
    assert a == a[..i] + [a[i]] + a[i + 1..] && b == b[..i] + [b[i]] + b[i + 1..];
  }

  /** With a one-character separator, splitting undoes joining as long as the suffix is free of it. */
  lemma SplitUndoesJoin(prefix: string, c: char, suffix: string)
    requires c !in suffix
    ensures Split(prefix + [c] + suffix, [c]) == Some(Parts(prefix, suffix))
  {
    var s := prefix + [c] + suffix;
    RFindIsLast(s, [c], |s|);
    assert At(s, [c], |prefix|);
    forall j | |prefix| < j <= |s| ensures !At(s, [c], j) {
      if j < |s| { assert s[j] == suffix[j - |prefix| - 1]; assert s[j..j + 1][0] == s[j]; }
    }
    assert RFind(s, [c]) == Some(|prefix|);
    assert s[..|prefix|] == prefix && s[|prefix| + 1..] == suffix;
  }

  /** And joining undoes splitting; there is nothing to split exactly when the separator does not occur. */
  lemma JoinUndoesSplit(s: string, c: char)
    ensures Split(s, [c]).Some? <==> c in s
    ensures Split(s, [c]).Some? ==>
      var p := Split(s, [c]).value; s == p.prefix + [c] + p.suffix && c !in p.suffix
  {
    RFindIsLast(s, [c], |s|);
    forall k | 0 <= k <= |s| ensures At(s, [c], k) <==> k < |s| && s[k] == c {
      AtCharacter(s, c, k);
    }
    var r := RFind(s, [c]);
    if r.Some? {
      assert s == s[..r.value] + [c] + s[r.value + 1..];
    }
  }

  lemma AtCharacter(s: string, c: char, k: nat)
    requires k <= |s|
    ensures At(s, [c], k) <==> k < |s| && s[k] == c
  {
    if k < |s| { assert s[k..k + 1] == [s[k]]; }
  }

  // ----- joined names, for separators of any length -----

  type Separator = s: string | s != "" witness "."

  lemma JoinedSplits(s: string, sep: Separator)
    ensures Split(sep + s, sep).Some?
  {
    RFindIsLast(sep + s, sep, |sep + s|);
    assert At(sep + s, sep, 0);
  }

  /** How the part of a joined name from the separator on is cut. */
  function Joint(s: string, sep: Separator): Parts {
    JoinedSplits(s, sep);
    Split(sep + s, sep).value
  }

  /**
   * What comes before the separator never decides where a joined name is cut:
   * p followed by separator and s is cut where separator and s are.
   */
  lemma SplitJoined(p: string, sep: Separator, s: string)
    ensures Split(p + sep + s, sep) == Some(Parts(p + Joint(s, sep).prefix, Joint(s, sep).suffix))
  {
    var joined, tail := p + sep + s, sep + s;
    JoinedSplits(s, sep);
    assert joined == p + tail;
    RFindIsLast(tail, sep, |tail|);
    var i := RFind(tail, sep).value;
    AtBehind(p, tail, sep, i);
    forall j | |p| + i < j <= |joined| ensures !At(joined, sep, j) {
      AtBehind(p, tail, sep, j - |p|);
    }
    RFindIs(joined, sep, |p| + i);
    assert joined[..|p| + i] == p + tail[..i] && joined[|p| + i + 1..] == tail[i + 1..];
  }

  lemma RFindIs(s: string, sep: string, i: nat)
    requires i <= |s| && At(s, sep, i) && forall j :: i < j <= |s| ==> !At(s, sep, j)
    ensures RFind(s, sep) == Some(i)
  {
    RFindIsLast(s, sep, |s|);
  }

  lemma AtBehind(p: string, tail: string, sep: string, j: nat)
    requires j <= |tail|
    ensures At(p + tail, sep, |p| + j) <==> At(tail, sep, j)
  {
    if j + |sep| <= |tail| {
      assert (p + tail)[|p| + j..|p| + j + |sep|] == tail[j..j + |sep|];
    }
  }

  /** The separator does not occur again behind its first character. */
  ghost predicate OnceIn(s: string, sep: Separator) {
    forall j :: 0 < j <= |sep + s| ==> !At(sep + s, sep, j)
  }

  /** Then the name is cut at the joint, and all but the first character of the separator stays with the suffix. */
  lemma JointOnce(s: string, sep: Separator)
    requires OnceIn(s, sep)
    ensures Joint(s, sep) == Parts("", sep[1..] + s)
  {
    RFindIsLast(sep + s, sep, |sep + s|);
    JoinedSplits(s, sep);
    assert RFind(sep + s, sep) == Some(0);
    assert (sep + s)[1..] == sep[1..] + s;
  }

  /** Of a separator of several characters the rest stays: "a::b" is cut into "a" and ":b". */
  lemma LongSeparatorStays()
    ensures Split("a" + "::" + "b", "::") == Some(Parts("a", ":b"))
  {
    var sep: Separator, tail := "::", "::" + "b";
    assert |tail| == 3 && tail[1..3] == ":b";
    forall j | 0 < j <= |tail| ensures !At(tail, sep, j) {
      if j + 2 <= |tail| {
        var x := tail[1..3];
        assert j == 1 && x[1] == 'b';
      }
    }
    JointOnce("b", sep);
    SplitJoined("a", sep, "b");
    assert sep[1..] + "b" == ":b" && "a" + "" == "a";
  }

  /** What precedes the cut repeats the separator. */
  lemma HeadRepeats(s: string, sep: Separator)
    ensures sep <= Joint(s, sep).prefix + sep
  {
    var tail := sep + s;
    JoinedSplits(s, sep);
    RFindIsLast(tail, sep, |tail|);
    var i := RFind(tail, sep).value;
    assert tail[..i] + sep == tail[..i + |sep|];
    assert sep == tail[..|sep|];
  }
}
