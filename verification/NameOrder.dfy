/** The key order of std::map<std::string, ...>. */
module NameOrder {

  /** Lexicographic order. */
  predicate Before(a: string, b: string) {
    b != [] && (a == [] || a[0] < b[0] || (a[0] == b[0] && Before(a[1..], b[1..])))
  }

  lemma {:induction false} BeforeTotal(a: string, b: string)
    ensures Before(a, b) || a == b || Before(b, a)
    ensures !(Before(a, b) && Before(b, a)) && !Before(a, a)
  {
    if a != [] { BeforeTotal(a[1..], a[1..]); }
    if a != [] && b != [] && a[0] == b[0] {
      BeforeTotal(a[1..], b[1..]);
      assert a == [a[0]] + a[1..] && b == [b[0]] + b[1..];
    }
  }

  lemma {:induction false} BeforeTransitive(a: string, b: string, c: string)
    requires Before(a, b) && Before(b, c)
    ensures Before(a, c)
  {
    if a != [] && a[0] == b[0] && b[0] == c[0] {
      BeforeTransitive(a[1..], b[1..], c[1..]);
    }
  }

  ghost predicate SortedNames(s: seq<string>) {
    forall i, j :: 0 <= i < j < |s| ==> Before(s[i], s[j])
  }

  /** Adding a key; an existing one stays single. */
  function InsertName(s: seq<string>, x: string): seq<string> {
    if s == [] then [x]
    else if x == s[0] then s
    else if Before(x, s[0]) then [x] + s
    else [s[0]] + InsertName(s[1..], x)
  }

  /** The keys stay strictly sorted and gain exactly the given one. */
  lemma {:induction false} InsertNameKeeps(s: seq<string>, x: string)
    requires SortedNames(s)
    ensures SortedNames(InsertName(s, x))
    ensures forall n :: n in InsertName(s, x) <==> n in s || n == x
  {
    if s == [] {
    } else {
      BeforeTotal(x, s[0]);
      assert forall n :: n in s <==> n == s[0] || n in s[1..];
      if Before(x, s[0]) {
        forall j | 0 <= j < |s| ensures Before(x, s[j]) {
          if j > 0 { BeforeTransitive(x, s[0], s[j]); }
        }
      } else if x != s[0] {
        InsertNameKeeps(s[1..], x);
        var r := InsertName(s[1..], x);
        forall j | 0 <= j < |r| ensures Before(s[0], r[j]) {
          assert r[j] in r;
          if r[j] != x {
            var k :| 0 <= k < |s[1..]| && s[1..][k] == r[j];
            assert s[k + 1] == r[j];
          }
        }
      }
    }
  }

  /** Strictly sorted keys are distinct. */
  lemma SortedDistinct(s: seq<string>, i: nat, j: nat)
    requires SortedNames(s) && i < |s| && j < |s| && i != j
    ensures s[i] != s[j]
  {
    BeforeTotal(s[i], s[j]);
  }

  /** The position of a key. */
  ghost function IndexOf(s: seq<string>, name: string): (b: nat)
    requires name in s
    ensures b < |s| && s[b] == name
  {
    var b: nat :| b < |s| && s[b] == name;
    b
  }

  /** At i the strings first differ, or a ends there and b goes on. */
  ghost predicate DiffersAt(a: string, b: string, i: nat) {
    i <= |a| && i < |b| && a[..i] == b[..i] && (i == |a| || a[i] < b[i])
  }

  lemma SameFirst(a: string, b: string, i: nat)
    requires a != [] && b != [] && a[0] == b[0]
    ensures DiffersAt(a[1..], b[1..], i) <==> DiffersAt(a, b, i + 1)
  {
    if i <= |a[1..]| && i <= |b[1..]| {
      assert a[..i + 1] == [a[0]] + a[1..][..i] && b[..i + 1] == [b[0]] + b[1..][..i];
      assert a[..i + 1][1..] == a[1..][..i] && b[..i + 1][1..] == b[1..][..i];
    }
  }

  lemma OtherFirst(a: string, b: string, i: nat)
    requires a != [] && b != [] && a[0] != b[0] && DiffersAt(a, b, i)
    ensures i == 0
  {
    if i > 0 {
      FirstOfPrefix(a, i);
      FirstOfPrefix(b, i);
    }
  }

  lemma FirstOfPrefix(a: string, i: nat)
    requires 0 < i <= |a|
    ensures a[..i] != [] && a[..i][0] == a[0]
  {
  }

  /** The order of std::string: by the first character that differs, or the one that ends first comes first. */
  lemma {:induction false} BeforeIff(a: string, b: string)
    ensures Before(a, b) <==> exists i: nat :: DiffersAt(a, b, i)
  {
    if b != [] && (a == [] || a[0] < b[0]) { assert DiffersAt(a, b, 0); }
    if a != [] && b != [] && a[0] == b[0] {
      BeforeIff(a[1..], b[1..]);
      if i: nat :| DiffersAt(a[1..], b[1..], i) { SameFirst(a, b, i); }
      if i: nat :| DiffersAt(a, b, i) { SameFirst(a, b, i - 1); }
    }
    if a != [] && b != [] && a[0] != b[0] {
      if i: nat :| DiffersAt(a, b, i) { OtherFirst(a, b, i); }
    }
  }
}
