/** Selecting the elements of a sequence by flags. */
module Selection {

  /** The positions whose flag is set, in order. */
  ghost function KeptIndices(flags: seq<bool>): (r: seq<nat>)
    ensures forall k :: 0 <= k < |r| ==> r[k] < |flags| && flags[r[k]]
    ensures forall i, j :: 0 <= i < j < |r| ==> r[i] < r[j]
    ensures forall i :: 0 <= i < |flags| && flags[i] ==> i in r
  {
    if flags == [] then []
    else KeptIndices(flags[..|flags| - 1]) + if flags[|flags| - 1] then [|flags| - 1] else []
  }

  /** The elements whose flag is set. */
  ghost function Kept<T>(s: seq<T>, flags: seq<bool>): (r: seq<T>)
    requires |s| == |flags|
    ensures |r| == |KeptIndices(flags)|
    ensures forall k :: 0 <= k < |r| ==> r[k] == s[KeptIndices(flags)[k]]
  {
    seq(|KeptIndices(flags)|, k requires 0 <= k < |KeptIndices(flags)| => s[KeptIndices(flags)[k]])
  }

  lemma KeptSnoc<T>(s: seq<T>, flags: seq<bool>, b: nat)
    requires |s| == |flags| && b < |s|
    ensures Kept(s[..b + 1], flags[..b + 1]) == Kept(s[..b], flags[..b]) + if flags[b] then [s[b]] else []
  {
    assert flags[..b + 1][..b] == flags[..b];
  }

  lemma {:induction false} AllKeptIndices(flags: seq<bool>)
    requires forall i :: 0 <= i < |flags| ==> flags[i]
    ensures |KeptIndices(flags)| == |flags| && forall k :: 0 <= k < |flags| ==> KeptIndices(flags)[k] == k
  {
    if flags != [] { AllKeptIndices(flags[..|flags| - 1]); }
  }

  /** When all are initialised nothing is dropped. */
  lemma NothingDropped<T>(s: seq<T>, flags: seq<bool>, kept: seq<T>)
    requires |s| == |flags| && kept == Kept(s, flags) && forall i :: 0 <= i < |flags| ==> flags[i]
    ensures kept == s
  {
    AllKeptIndices(flags);
  }
}
