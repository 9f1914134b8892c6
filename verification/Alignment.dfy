/**
 * One extraction of a window from all buffers, on values: the union of the
 * timestamps, the merge of every buffer, what stays queued, and how far the
 * result depends on the way rows were split into updates.
 */
module Alignment {
  import opened TimeStamps
  import opened TimeTables
  import opened RowQueues
  import opened Merging
  import opened MergeTrace

  // ----- the specification of extract -----

  /** The std::set filled by extract_timestamps_between over the buffers from i on. */
  function GatherAll(qs: seq<Queue>, i: nat, start: TimeStamp, end: TimeStamp, acc: seq<TimeStamp>): seq<TimeStamp>
    requires i <= |qs|
    decreases |qs| - i
  {
    if i == |qs| then acc
    else GatherAll(qs, i + 1, start, end, Gather(Flatten(qs[i].chunks), 0, start, end, acc))
  }

  function Union(qs: seq<Queue>, start: TimeStamp, end: TimeStamp): seq<TimeStamp> {
    GatherAll(qs, 0, start, end, [])
  }

  /** A published table: its timestamps and the finished columns of every buffer. */
  datatype Extraction = Extraction(u: seq<TimeStamp>, grids: seq<Grid>)

  function Extracted(qs: seq<Queue>, types: seq<seq<TypeCode>>, start: TimeStamp, end: TimeStamp): (e: Extraction)
    requires |types| == |qs|
    ensures e.u == Union(qs, start, end) && |e.grids| == |qs|
    ensures forall b :: 0 <= b < |qs| ==> e.grids[b] == MergeBuffer(e.u, end, types[b], qs[b].Live()).0
  {
    var u := Union(qs, start, end);
    Extraction(u, seq(|qs|, b requires 0 <= b < |qs| => MergeBuffer(u, end, types[b], qs[b].Live()).0))
  }

  function AfterExtract(qs: seq<Queue>, types: seq<seq<TypeCode>>, start: TimeStamp, end: TimeStamp): (r: seq<Queue>)
    requires |types| == |qs|
    ensures |r| == |qs|
    ensures forall b :: 0 <= b < |qs| ==>
      r[b] == qs[b].Dropped(MergeBuffer(Union(qs, start, end), end, types[b], qs[b].Live()).1)
  {
    var u := Union(qs, start, end);
    seq(|qs|, b requires 0 <= b < |qs| => qs[b].Dropped(MergeBuffer(u, end, types[b], qs[b].Live()).1))
  }

  // ----- the union -----

  /** Some held row of buffer b, consumed or not, has this time. */
  ghost predicate HeldBy(q: Queue, t: TimeStamp) {
    exists j :: 0 <= j < |Flatten(q.chunks)| && Flatten(q.chunks)[j].ts == t
  }

  ghost predicate LiveIn(q: Queue, t: TimeStamp) {
    exists j :: 0 <= j < |q.Live()| && q.Live()[j].ts == t
  }

  lemma {:induction false} GatherAllElements(qs: seq<Queue>, i: nat, start: TimeStamp, end: TimeStamp,
        acc: seq<TimeStamp>, t: TimeStamp)
    requires i <= |qs|
    ensures t in GatherAll(qs, i, start, end, acc) <==>
            t in acc || (InWindow(t, start, end) && exists b :: i <= b < |qs| && HeldBy(qs[b], t))
    decreases |qs| - i
  {
    if i < |qs| {
      var acc' := Gather(Flatten(qs[i].chunks), 0, start, end, acc);
      GatherElements(Flatten(qs[i].chunks), 0, start, end, acc, t);
      GatherAllElements(qs, i + 1, start, end, acc', t);
    }
  }

  lemma {:induction false} GatherAllAscending(qs: seq<Queue>, i: nat, start: TimeStamp, end: TimeStamp,
        acc: seq<TimeStamp>)
    requires i <= |qs| && Ascending(acc)
    ensures Ascending(GatherAll(qs, i, start, end, acc))
    decreases |qs| - i
  {
    if i < |qs| {
      GatherAscending(Flatten(qs[i].chunks), 0, start, end, acc);
      GatherAllAscending(qs, i + 1, start, end, Gather(Flatten(qs[i].chunks), 0, start, end, acc));
    }
  }

  /** The published timestamps: ascending, inside the window, exactly those some buffer holds. */
  lemma UnionIsHeldWindow(qs: seq<Queue>, start: TimeStamp, end: TimeStamp)
    ensures Ascending(Union(qs, start, end))
    ensures forall t :: t in Union(qs, start, end) <==>
              InWindow(t, start, end) && exists b :: 0 <= b < |qs| && HeldBy(qs[b], t)
  {
    GatherAllAscending(qs, 0, start, end, []);
    forall t
      ensures t in Union(qs, start, end) <==> InWindow(t, start, end) && exists b :: 0 <= b < |qs| && HeldBy(qs[b], t)
    {
      GatherAllElements(qs, 0, start, end, [], t);
    }
  }

  /** The union covers every buffer whose unconsumed rows are not older than the start of the window. */
  lemma UnionCovers(qs: seq<Queue>, start: TimeStamp, end: TimeStamp, b: nat)
    requires b < |qs| && qs[b].Ok() && AllFrom(qs[b].Live(), start)
    ensures Covers(Union(qs, start, end), end, qs[b].Live())
  {
    UnionIsHeldWindow(qs, start, end);
    var u, live, flat := Union(qs, start, end), qs[b].Live(), Flatten(qs[b].chunks);
    qs[b].InnerInRange();
    forall i | 0 <= i < |u| ensures Lt(u[i], end) {
      assert u[i] in u;
    }
    forall j | 0 <= j < |live| && Lt(live[j].ts, end) ensures live[j].ts in u {
      assert flat[qs[b].inner + j] == live[j];
      assert HeldBy(qs[b], live[j].ts);
    }
  }

  // ----- exactness of a whole extraction -----

  /** A buffer of strictly ascending rows of the right width. */
  ghost predicate Fit(q: Queue, types: seq<TypeCode>) {
    q.Ok() && AscendingRows(q.Live()) && Wide(q.Live(), |types|)
  }

  ghost predicate AllFit(qs: seq<Queue>, types: seq<seq<TypeCode>>) {
    |types| == |qs| && forall b :: 0 <= b < |qs| ==> Fit(qs[b], types[b])
  }

  /** The same, with no row before the window. */
  ghost predicate Ready(q: Queue, types: seq<TypeCode>, start: TimeStamp) {
    Fit(q, types) && AllFrom(q.Live(), start)
  }

  ghost predicate AllReady(qs: seq<Queue>, types: seq<seq<TypeCode>>, start: TimeStamp) {
    |types| == |qs| && forall b :: 0 <= b < |qs| ==> Ready(qs[b], types[b], start)
  }

  /**
   * Exact merge: in every buffer the output rows of the longest common prefix
   * of the union and the buffer are copies, all others are blank, so every
   * published cell is defined; and it is the outer join exactly when the
   * buffer's times before `end` are an initial run of the union.
   */
  lemma ExtractExact(qs: seq<Queue>, types: seq<seq<TypeCode>>, start: TimeStamp, end: TimeStamp, b: nat)
    requires AllReady(qs, types, start) && b < |qs|
    ensures var e, live := Extracted(qs, types, start, end), qs[b].Live();
      && PrefixOnly(e.grids[b], e.u, types[b], live, CommonRun(e.u, live, 0))
      && !e.grids[b].broken
      && (OuterJoin(e.grids[b], e.u, types[b], live) <==> InitialRun(e.u, end, live))
  {
    UnionCovers(qs, start, end, b);
    var u := Union(qs, start, end);
    MergeExact(u, end, types[b], qs[b].Live());
    OuterJoinIffInitialRun(u, end, types[b], qs[b].Live());
  }

  /**
   * For rows in any order, so also for those in the documented one, a published
   * row of a buffer is written exactly unless the first of the buffer's rows
   * seen at it is already behind it.
   */
  lemma ExtractWrittenIff(qs: seq<Queue>, types: seq<seq<TypeCode>>, start: TimeStamp, end: TimeStamp, b: nat, r: nat)
    requires |types| == |qs| && b < |qs| && Wide(qs[b].Live(), |types[b]|) && Complete(qs[b].Live())
    requires r < |Union(qs, start, end)|
    ensures var e := Extracted(qs, types, start, end);
      Defined(e.grids[b], r) <==> !PassedOver(e.u, end, qs[b].Live(), r)
  {
    WrittenIff(Union(qs, start, end), end, types[b], qs[b].Live(), r);
  }

  /**
   * With times and pulse ids that do not decrease, all published cells of a
   * buffer are defined exactly when the row that ends its common run with the
   * union is no repetition.
   */
  lemma ExtractDefinedIff(qs: seq<Queue>, types: seq<seq<TypeCode>>, start: TimeStamp, end: TimeStamp, b: nat)
    requires |types| == |qs| && b < |qs| && qs[b].Ok()
    requires SortedRows(qs[b].Live()) && Wide(qs[b].Live(), |types[b]|) && AllFrom(qs[b].Live(), start)
    requires Complete(qs[b].Live())
    ensures var e := Extracted(qs, types, start, end);
      (forall r :: 0 <= r < |e.u| ==> Defined(e.grids[b], r)) <==> !Repeats(e.u, qs[b].Live())
  {
    UnionCovers(qs, start, end, b);
    DefinedIffNoRepeat(Union(qs, start, end), end, types[b], qs[b].Live());
  }

  /** The union is that of a window, for every buffer. */
  lemma UnionFillsWindow(qs: seq<Queue>, start: TimeStamp, end: TimeStamp, b: nat)
    requires b < |qs| && qs[b].Ok() && Union(qs, start, end) != []
    ensures FillsWindow(Union(qs, start, end), start, end, qs[b].Live())
  {
    UnionIsHeldWindow(qs, start, end);
    var u, live, flat := Union(qs, start, end), qs[b].Live(), Flatten(qs[b].chunks);
    qs[b].InnerInRange();
    forall i | 0 <= i < |u| ensures InWindow(u[i], start, end) {
      assert u[i] in u;
    }
    forall j | 0 <= j < |live| && InWindow(live[j].ts, start, end) ensures live[j].ts in u {
      assert flat[qs[b].inner + j] == live[j];
      assert HeldBy(qs[b], live[j].ts);
    }
  }

  lemma UnionBelowEnd(qs: seq<Queue>, start: TimeStamp, end: TimeStamp)
    ensures forall i :: 0 <= i < |Union(qs, start, end)| ==> InWindow(Union(qs, start, end)[i], start, end)
  {
    UnionIsHeldWindow(qs, start, end);
    forall i | 0 <= i < |Union(qs, start, end)| ensures InWindow(Union(qs, start, end)[i], start, end) {
      assert Union(qs, start, end)[i] in Union(qs, start, end);
    }
  }

  /**
   * Rows before the window are what spoils a table: all flags a buffer
   * publishes are written, and all its cells if its rows are complete, exactly
   * when none of its unconsumed rows is older than the start of the window.
   */
  lemma ExtractWrittenIffNoneEarly(qs: seq<Queue>, types: seq<seq<TypeCode>>, start: TimeStamp, end: TimeStamp, b: nat)
    requires |types| == |qs| && b < |qs| && Fit(qs[b], types[b]) && Union(qs, start, end) != []
    ensures var e, live := Extracted(qs, types, start, end), qs[b].Live();
      && (FlagsWritten(e.grids[b], |e.u|) <==> AllFrom(live, start))
      && (Complete(live) ==> (AllDefined(e.grids[b], |e.u|) <==> AllFrom(live, start)))
  {
    UnionFillsWindow(qs, start, end, b);
    WrittenIffNoneEarly(Union(qs, start, end), start, end, types[b], qs[b].Live());
  }

  /** An extraction takes rows up to the end of the window from the front of every buffer. */
  lemma ExtractSuffix(qs: seq<Queue>, types: seq<seq<TypeCode>>, start: TimeStamp, end: TimeStamp, b: nat)
    requires |types| == |qs| && b < |qs| && Fit(qs[b], types[b])
    ensures var q, q' := qs[b], AfterExtract(qs, types, start, end)[b];
      var c := MergeBuffer(Union(qs, start, end), end, types[b], q.Live()).1;
      && c <= |q.Live()| && q'.Ok() && q'.Live() == q.Live()[c..]
      && StopsBefore(Union(qs, start, end), end, q.Live(), c)
      && (forall j :: 0 <= j < c ==> Le(q.Live()[j].ts, end))
      && (forall x :: x in q'.Stale() ==> x in q.Stale() || x in q.Live()[..c])
  {
    var u, live := Union(qs, start, end), qs[b].Live();
    var c := MergeBuffer(u, end, types[b], live).1;
    MergeStops(u, end, types[b], live);
    qs[b].DroppedLive(c);
    qs[b].DroppedStale(c);
    StoppedBefore(u, end, live, c);
  }

  lemma StoppedBefore(u: seq<TimeStamp>, end: TimeStamp, rows: seq<Row>, c: nat)
    requires StopsBefore(u, end, rows, c)
    ensures forall j :: 0 <= j < c ==> Le(rows[j].ts, end)
  {
  }

  /**
   * Window frontier, exactly: what a buffer keeps is at or after the end of the
   * window if and only if output rows are left whenever the merge sees one of
   * its rows before the end.
   */
  lemma ExtractKeepsIff(qs: seq<Queue>, types: seq<seq<TypeCode>>, start: TimeStamp, end: TimeStamp, b: nat)
    requires |types| == |qs| && b < |qs| && Fit(qs[b], types[b])
    ensures AllFrom(AfterExtract(qs, types, start, end)[b].Live(), end) <==>
            SeenInTime(Union(qs, start, end), end, qs[b].Live())
  {
    ExtractSuffix(qs, types, start, end, b);
    var u, live := Union(qs, start, end), qs[b].Live();
    KeptFromEndIff(u, end, live, MergeBuffer(u, end, types[b], live).1);
  }

  /**
   * Window frontier: after an extraction every buffer keeps a suffix of its
   * rows, all of them at or after the end of the window, and everything
   * consumed was at or before it.
   */
  lemma ExtractFrontier(qs: seq<Queue>, types: seq<seq<TypeCode>>, start: TimeStamp, end: TimeStamp, b: nat)
    requires AllReady(qs, types, start) && b < |qs|
    ensures var q, q' := qs[b], AfterExtract(qs, types, start, end)[b];
      var c := MergeBuffer(Union(qs, start, end), end, types[b], q.Live()).1;
      && c <= |q.Live()| && q'.Ok() && q'.Live() == q.Live()[c..]
      && AllFrom(q'.Live(), end)
      && (forall j :: 0 <= j < c ==> Le(q.Live()[j].ts, end))
      && (forall x :: x in q'.Stale() ==> x in q.Stale() || x in q.Live()[..c])
  {
    ExtractSuffix(qs, types, start, end, b);
    UnionCovers(qs, start, end, b);
    RemainingAtOrAfterEnd(Union(qs, start, end), end, types[b], qs[b].Live());
  }

  /**
   * Progress: when some buffer's first row lies in the window, the extraction
   * consumes it and publishes some time.
   */
  lemma ExtractProgress(qs: seq<Queue>, types: seq<seq<TypeCode>>, start: TimeStamp, end: TimeStamp, b: nat)
    requires |types| == |qs| && b < |qs| && Fit(qs[b], types[b])
    requires qs[b].Live() != [] && InWindow(qs[b].Live()[0].ts, start, end)
    ensures |AfterExtract(qs, types, start, end)[b].Live()| < |qs[b].Live()|
    ensures qs[b].Live()[0].ts in Union(qs, start, end)
  {
    var u, live := Union(qs, start, end), qs[b].Live();
    FirstIsHeld(qs[b]);
    UnionIsHeldWindow(qs, start, end);
    ExtractSuffix(qs, types, start, end, b);
    FirstIsSeen(u, end, live, MergeBuffer(u, end, types[b], live).1);
  }

  lemma FirstIsHeld(q: Queue)
    requires q.Ok() && q.Live() != []
    ensures HeldBy(q, q.Live()[0].ts)
  {
    q.InnerInRange();
    assert Flatten(q.chunks)[q.inner] == q.Live()[0];
  }

  lemma FirstIsSeen(u: seq<TimeStamp>, end: TimeStamp, rows: seq<Row>, c: nat)
    requires rows != [] && u != [] && Lt(rows[0].ts, end) && StopsBefore(u, end, rows, c)
    ensures c > 0
  {
    assert Cursor(u, rows, 0) == 0;
    ReachedSnoc(u, end, rows, 0);
  }

  /** Row counts add up: consumed rows are exactly the reported ones plus those lost behind the first gap. */
  function Reported(u: seq<TimeStamp>, live: seq<Row>): nat { CommonRun(u, live, 0) }

  /**
   * No row is lost exactly when the buffer has no gap, or has no row up to and
   * including the end of the window behind its common prefix with the union.
   */
  lemma NothingLostIff(qs: seq<Queue>, types: seq<seq<TypeCode>>, start: TimeStamp, end: TimeStamp, b: nat)
    requires |types| == |qs| && b < |qs| && Fit(qs[b], types[b])
    ensures var u, live := Union(qs, start, end), qs[b].Live();
      var k, c := Reported(u, live), MergeBuffer(u, end, types[b], live).1;
      && k <= c <= |live| && (|MatchedRows(u, live, c)| == c <==> c == k)
      && (c == k <==> k == |u| || (forall j :: k <= j < |live| ==> Gt(live[j].ts, end)))
  {
    var u, live := Union(qs, start, end), qs[b].Live();
    MergeStops(u, end, types[b], live);
    UnionBelowEnd(qs, start, end);
    NothingPassedIff(u, end, live, Reported(u, live), MergeBuffer(u, end, types[b], live).1);
  }

  // ----- lockstep -----

  /** The rows of the window: those before `end`. */
  ghost predicate SplitAt(live: seq<Row>, end: TimeStamp, w: nat) {
    && w <= |live|
    && (forall j :: 0 <= j < w ==> Lt(live[j].ts, end))
    && (forall j :: w <= j < |live| ==> Ge(live[j].ts, end))
  }

  /** No row that was consumed earlier is held with a time inside the window. */
  ghost predicate StaleBefore(q: Queue, start: TimeStamp) {
    forall x :: x in q.Stale() ==> Lt(x.ts, start)
  }

  /** All buffers carry the same times in the window. */
  ghost predicate Lockstep(qs: seq<Queue>, end: TimeStamp, w: nat) {
    && (forall b :: 0 <= b < |qs| ==> SplitAt(qs[b].Live(), end, w))
    && (forall b, j :: 0 <= b < |qs| && 0 <= j < w ==> qs[b].Live()[j].ts == qs[0].Live()[j].ts)
  }

  /**
   * Lossless lockstep: when all buffers carry the same times in the window,
   * every output row is valid and equals its source in every buffer, and
   * exactly the rows from `end` on remain.
   */
  lemma LockstepLossless(qs: seq<Queue>, types: seq<seq<TypeCode>>, start: TimeStamp, end: TimeStamp, w: nat)
    requires AllReady(qs, types, start) && qs != [] && Lockstep(qs, end, w)
    requires forall b :: 0 <= b < |qs| ==> StaleBefore(qs[b], start)
    ensures Union(qs, start, end) == Stamps(qs[0].Live()[..w])
    ensures forall b :: 0 <= b < |qs| ==>
      && (forall r :: 0 <= r < w ==> Copied(Extracted(qs, types, start, end).grids[b], r, qs[b].Live()[r]))
      && AfterExtract(qs, types, start, end)[b].Live() == qs[b].Live()[w..]
  {
    var u, times := Union(qs, start, end), Stamps(qs[0].Live()[..w]);
    LockstepUnion(qs, types, start, end, w);
    forall b | 0 <= b < |qs|
      ensures forall r :: 0 <= r < w ==> Copied(Extracted(qs, types, start, end).grids[b], r, qs[b].Live()[r])
      ensures AfterExtract(qs, types, start, end)[b].Live() == qs[b].Live()[w..]
    {
      assert SplitAt(qs[b].Live(), end, w);
      forall j | 0 <= j < w ensures qs[b].Live()[j].ts == u[j] {
        assert qs[b].Live()[j].ts == qs[0].Live()[j].ts;
      }
      LockstepBuffer(qs, types, start, end, w, b);
    }
  }

  /** A buffer that carries exactly the times of the union is copied as a whole. */
  lemma LockstepBuffer(qs: seq<Queue>, types: seq<seq<TypeCode>>, start: TimeStamp, end: TimeStamp, w: nat, b: nat)
    requires AllReady(qs, types, start) && b < |qs| && w == |Union(qs, start, end)| <= |qs[b].Live()|
    requires forall j :: 0 <= j < w ==> qs[b].Live()[j].ts == Union(qs, start, end)[j]
    ensures forall r :: 0 <= r < w ==> Copied(Extracted(qs, types, start, end).grids[b], r, qs[b].Live()[r])
    ensures AfterExtract(qs, types, start, end)[b].Live() == qs[b].Live()[w..]
  {
    var u, live := Union(qs, start, end), qs[b].Live();
    ExtractFrontier(qs, types, start, end, b);
    ExtractExact(qs, types, start, end, b);
    UnionCovers(qs, start, end, b);
    MergeExact(u, end, types[b], live);
    RunReaches(u, live, w, 0);
  }

  lemma LockstepUnion(qs: seq<Queue>, types: seq<seq<TypeCode>>, start: TimeStamp, end: TimeStamp, w: nat)
    requires AllReady(qs, types, start) && qs != [] && Lockstep(qs, end, w)
    requires forall b :: 0 <= b < |qs| ==> StaleBefore(qs[b], start)
    ensures Union(qs, start, end) == Stamps(qs[0].Live()[..w])
  {
    var u, times := Union(qs, start, end), Stamps(qs[0].Live()[..w]);
    forall t ensures t in u <==> t in times {
      LockstepMember(qs, types, start, end, w, t);
    }
    UnionIsHeldWindow(qs, start, end);
    assert Ready(qs[0], types[0], start);
    AscendingUnique(u, times);
  }

  lemma LockstepMember(qs: seq<Queue>, types: seq<seq<TypeCode>>, start: TimeStamp, end: TimeStamp, w: nat,
        t: TimeStamp)
    requires AllReady(qs, types, start) && qs != [] && Lockstep(qs, end, w)
    requires forall b :: 0 <= b < |qs| ==> StaleBefore(qs[b], start)
    ensures t in Union(qs, start, end) <==> t in Stamps(qs[0].Live()[..w])
  {
    var times := Stamps(qs[0].Live()[..w]);
    UnionIsHeldWindow(qs, start, end);
    if t in Union(qs, start, end) {
      var b :| 0 <= b < |qs| && HeldBy(qs[b], t);
      HeldIsStaleOrLive(qs[b], t);
      LockstepTime(qs, end, w, b, t);
    }
    if t in times {
      UnionCovers(qs, start, end, 0);
      TimesCovered(Union(qs, start, end), qs[0].Live(), end, w, t);
    }
  }

  lemma TimesCovered(u: seq<TimeStamp>, live: seq<Row>, end: TimeStamp, w: nat, t: TimeStamp)
    requires Covers(u, end, live) && SplitAt(live, end, w) && t in Stamps(live[..w])
    ensures t in u
  {
    var j :| 0 <= j < w && Stamps(live[..w])[j] == t;
    assert live[j].ts == t;
  }

  lemma LockstepTime(qs: seq<Queue>, end: TimeStamp, w: nat, b: nat, t: TimeStamp)
    requires b < |qs| && Lockstep(qs, end, w) && LiveIn(qs[b], t) && Lt(t, end)
    ensures t in Stamps(qs[0].Live()[..w])
  {
    var live := qs[b].Live();
    var j :| 0 <= j < |live| && live[j].ts == t;
    assert SplitAt(live, end, w);
    assert j < w;
    assert Stamps(qs[0].Live()[..w])[j] == t;
  }

  lemma {:induction false} RunReaches(u: seq<TimeStamp>, live: seq<Row>, w: nat, i: nat)
    requires i <= w == |u| <= |live|
    requires forall j :: 0 <= j < w ==> live[j].ts == u[j]
    ensures CommonRun(u, live, i) == w
    decreases w - i
  {
    if i < w { RunReaches(u, live, w, i + 1); }
  }

  // ----- independence of chunking -----

  /** The same live rows held in one chunk, with nothing consumed. */
  function Canonical(q: Queue): Queue {
    Queue(if q.Live() == [] then [] else [q.Live()], 0)
  }

  function AllCanonical(qs: seq<Queue>): (r: seq<Queue>)
    ensures |r| == |qs| && forall b :: 0 <= b < |qs| ==> r[b] == Canonical(qs[b])
  {
    seq(|qs|, b requires 0 <= b < |qs| => Canonical(qs[b]))
  }

  lemma CanonicalKeepsLive(q: Queue)
    ensures Canonical(q).Ok() && Canonical(q).Live() == q.Live() && Flatten(Canonical(q).chunks) == q.Live()
  {
    assert Flatten([q.Live()]) == q.Live() + Flatten<Row>([]);
  }

  /** Every consumed row still held with a time in the window is doubled by an unconsumed row of some buffer. */
  ghost predicate StaleDoubled(qs: seq<Queue>, start: TimeStamp, end: TimeStamp) {
    forall b, x :: 0 <= b < |qs| && x in qs[b].Stale() && InWindow(x.ts, start, end) ==>
      exists b' :: 0 <= b' < |qs| && LiveIn(qs[b'], x.ts)
  }

  /**
   * The timestamp scan revisits consumed rows of the first chunk. The union is
   * nevertheless that of the flat queues exactly when every such row in the
   * window is doubled by a live one.
   */
  lemma UnionIgnoresChunksIff(qs: seq<Queue>, start: TimeStamp, end: TimeStamp)
    requires forall b :: 0 <= b < |qs| ==> qs[b].Ok()
    ensures Union(qs, start, end) == Union(AllCanonical(qs), start, end) <==> StaleDoubled(qs, start, end)
  {
    var u, u' := Union(qs, start, end), Union(AllCanonical(qs), start, end);
    UnionIsHeldWindow(qs, start, end);
    UnionIsHeldWindow(AllCanonical(qs), start, end);
    if u == u' { SameUnionDoubles(qs, start, end); }
    if StaleDoubled(qs, start, end) {
      forall t ensures t in u <==> t in u' { DoubledSameUnion(qs, start, end, t); }
      AscendingUnique(u, u');
    }
  }

  lemma HeldByCanonical(q: Queue, t: TimeStamp)
    ensures HeldBy(Canonical(q), t) <==> LiveIn(q, t)
  {
    CanonicalKeepsLive(q);
  }

  lemma SameUnionDoubles(qs: seq<Queue>, start: TimeStamp, end: TimeStamp)
    requires forall b :: 0 <= b < |qs| ==> qs[b].Ok()
    requires Union(qs, start, end) == Union(AllCanonical(qs), start, end)
    ensures StaleDoubled(qs, start, end)
  {
    forall b, x | 0 <= b < |qs| && x in qs[b].Stale() && InWindow(x.ts, start, end)
      ensures exists b' :: 0 <= b' < |qs| && LiveIn(qs[b'], x.ts)
    {
      HeldIsStaleOrLive(qs[b], x.ts);
      UnionIsHeldWindow(qs, start, end);
      UnionIsHeldWindow(AllCanonical(qs), start, end);
      assert x.ts in Union(AllCanonical(qs), start, end);
      var b' :| 0 <= b' < |qs| && HeldBy(AllCanonical(qs)[b'], x.ts);
      HeldByCanonical(qs[b'], x.ts);
    }
  }

  lemma DoubledSameUnion(qs: seq<Queue>, start: TimeStamp, end: TimeStamp, t: TimeStamp)
    requires (forall b :: 0 <= b < |qs| ==> qs[b].Ok()) && StaleDoubled(qs, start, end)
    ensures t in Union(qs, start, end) <==> t in Union(AllCanonical(qs), start, end)
  {
    UnionIsHeldWindow(qs, start, end);
    UnionIsHeldWindow(AllCanonical(qs), start, end);
    if t in Union(qs, start, end) {
      var b :| 0 <= b < |qs| && HeldBy(qs[b], t);
      HeldIsStaleOrLive(qs[b], t);
      var b' :| 0 <= b' < |qs| && LiveIn(qs[b'], t);
      HeldByCanonical(qs[b'], t);
      assert HeldBy(AllCanonical(qs)[b'], t);
    }
    if t in Union(AllCanonical(qs), start, end) {
      var b :| 0 <= b < |qs| && HeldBy(AllCanonical(qs)[b], t);
      HeldByCanonical(qs[b], t);
      HeldIsStaleOrLive(qs[b], t);
    }
  }

  lemma HeldIsStaleOrLive(q: Queue, t: TimeStamp)
    requires q.Ok()
    ensures HeldBy(q, t) <==> LiveIn(q, t) || exists x :: x in q.Stale() && x.ts == t
  {
    q.InnerInRange();
    var flat := Flatten(q.chunks);
    assert flat == q.Stale() + q.Live();
    if HeldBy(q, t) {
      var j :| 0 <= j < |flat| && flat[j].ts == t;
      if j < q.inner {
        assert q.Stale()[j] in q.Stale();
      } else {
        assert q.Live()[j - q.inner].ts == t;
      }
    }
    if LiveIn(q, t) {
      var j :| 0 <= j < |q.Live()| && q.Live()[j].ts == t;
      assert flat[q.inner + j].ts == t;
    }
    if x :| x in q.Stale() && x.ts == t {
      var j :| 0 <= j < |q.Stale()| && q.Stale()[j] == x;
      assert flat[j].ts == t;
    }
  }

  /**
   * Chunking independence: two tables with the same unconsumed rows publish
   * the same table and keep the same rows, however the rows were split into
   * updates, provided consumed rows in the window are doubled by live ones.
   */
  lemma ChunkingIrrelevant(qs: seq<Queue>, qs': seq<Queue>, types: seq<seq<TypeCode>>, start: TimeStamp, end: TimeStamp)
    requires |types| == |qs| == |qs'| && forall b :: 0 <= b < |qs| ==> qs[b].Ok() && qs'[b].Ok()
    requires forall b :: 0 <= b < |qs| ==> qs[b].Live() == qs'[b].Live()
    requires StaleDoubled(qs, start, end) && StaleDoubled(qs', start, end)
    ensures Extracted(qs, types, start, end) == Extracted(qs', types, start, end)
    ensures forall b :: 0 <= b < |qs| ==>
      AfterExtract(qs, types, start, end)[b].Live() == AfterExtract(qs', types, start, end)[b].Live()
  {
    UnionIgnoresChunksIff(qs, start, end);
    UnionIgnoresChunksIff(qs', start, end);
    assert AllCanonical(qs) == AllCanonical(qs');
    assert Extracted(qs, types, start, end).grids == Extracted(qs', types, start, end).grids;
    forall b | 0 <= b < |qs|
      ensures AfterExtract(qs, types, start, end)[b].Live() == AfterExtract(qs', types, start, end)[b].Live()
    {
      qs[b].DroppedLive(MergeBuffer(Union(qs, start, end), end, types[b], qs[b].Live()).1);
      qs'[b].DroppedLive(MergeBuffer(Union(qs, start, end), end, types[b], qs[b].Live()).1);
    }
  }
}
