/**
 * The abstract value of a table buffer, a queue of rows held in chunks, and
 * the meaning of consuming rows from it with an early-stopping callback.
 */
module RowQueues {
  import opened TimeTables
  import opened TimeStamps

  // ----- flattening -----

  function Flatten<T>(ss: seq<seq<T>>): seq<T> {
    if ss == [] then [] else ss[0] + Flatten(ss[1..])
  }

  lemma {:induction false} FlattenSplit<T>(ss: seq<seq<T>>, k: nat)
    requires k <= |ss|
    ensures Flatten(ss) == Flatten(ss[..k]) + Flatten(ss[k..])
  {
    if k == 0 {
      assert ss[..0] == [] && ss[0..] == ss;
    } else {
      FlattenSplit(ss[1..], k - 1);
      assert ss[..k][1..] == ss[1..][..k - 1];
      assert ss[1..][k - 1..] == ss[k..];
    }
  }

  lemma {:induction false} FlattenSnoc<T>(ss: seq<seq<T>>, s: seq<T>)
    ensures Flatten(ss + [s]) == Flatten(ss) + s
  {
    FlattenSplit(ss + [s], |ss|);
    assert (ss + [s])[..|ss|] == ss && (ss + [s])[|ss|..] == [s];
    assert Flatten([s]) == s + Flatten<T>([]);
  }

  lemma FlattenTake<T>(ss: seq<seq<T>>, k: nat)
    requires k < |ss|
    ensures Flatten(ss[..k + 1]) == Flatten(ss[..k]) + ss[k]
  {
    FlattenSnoc(ss[..k], ss[k]);
    assert ss[..k + 1] == ss[..k] + [ss[k]];
  }

  /** The number of elements in the first o sequences. */
  function Offset<T>(ss: seq<seq<T>>, o: nat): nat
    requires o <= |ss|
  {
    if o == 0 then 0 else |ss[0]| + Offset(ss[1..], o - 1)
  }

  lemma {:induction false} OffsetEnd<T>(ss: seq<seq<T>>)
    ensures Offset(ss, |ss|) == |Flatten(ss)|
  {
    if ss != [] { OffsetEnd(ss[1..]); }
  }

  /** Element i of sequence o sits behind all elements of the sequences before it. */
  lemma {:induction false} FlattenAt<T>(ss: seq<seq<T>>, o: nat, i: nat)
    requires o < |ss| && i <= |ss[o]|
    ensures Offset(ss, o + 1) == Offset(ss, o) + |ss[o]| <= |Flatten(ss)|
    ensures i < |ss[o]| ==> Flatten(ss)[Offset(ss, o) + i] == ss[o][i]
  {
    if o > 0 { FlattenAt(ss[1..], o - 1, i); }
  }

  lemma {:induction false} FlattenElements<T>(ss: seq<seq<T>>, i: nat)
    requires i < |Flatten(ss)|
    ensures exists o :: 0 <= o < |ss| && Flatten(ss)[i] in ss[o]
  {
    if i < |ss[0]| {
      assert Flatten(ss)[i] in ss[0];
    } else {
      FlattenElements(ss[1..], i - |ss[0]|);
      var o :| 0 <= o < |ss[1..]| && Flatten(ss[1..])[i - |ss[0]|] in ss[1..][o];
      assert Flatten(ss)[i] in ss[o + 1];
    }
  }

  // ----- rows -----

  ghost predicate Wide(rows: seq<Row>, width: nat) {
    forall j :: 0 <= j < |rows| ==> |rows[j].cells| == width
  }

  ghost predicate AscendingRows(rows: seq<Row>) {
    forall i, j :: 0 <= i < j < |rows| ==> Lt(rows[i].ts, rows[j].ts)
  }

  ghost predicate AllFrom(rows: seq<Row>, start: TimeStamp) {
    forall j :: 0 <= j < |rows| ==> Ge(rows[j].ts, start)
  }

  lemma DropBoth<T>(s: seq<T>, i: nat, k: nat)
    requires i + k <= |s|
    ensures s[i..][k..] == s[i + k..]
  {
  }

  /** The last elements before i + k each lie before i or among the k behind it. */
  lemma SplitMembers<T>(s: seq<T>, i: nat, k: nat, part: seq<T>)
    requires i + k <= |s| && |part| <= i + k && part == s[i + k - |part|..i + k]
    ensures forall x :: x in part ==> x in s[..i] || x in s[i..][..k]
  {
    forall x | x in part ensures x in s[..i] || x in s[i..][..k] {
      var j :| i + k - |part| <= j < i + k && s[j] == x;
      if j < i { assert s[..i][j] == x; } else { assert s[i..][..k][j - i] == x; }
    }
  }

  // ----- the queue -----

  /** Chunks of rows, and how many rows of the first chunk are already consumed. */
  datatype Queue = Queue(chunks: seq<seq<Row>>, inner: nat) {

    ghost predicate Ok() {
      && (forall k :: 0 <= k < |chunks| ==> chunks[k] != [])
      && (if chunks == [] then inner == 0 else inner < |chunks[0]|)
    }

    lemma InnerInRange()
      requires Ok()
      ensures inner <= |Flatten(chunks)|
      ensures chunks != [] ==> inner < |Flatten(chunks)|
    {
    }

    /** The rows not yet consumed: the flat queue this structure stands for. */
    function Live(): seq<Row> {
      if inner <= |Flatten(chunks)| then Flatten(chunks)[inner..] else []
    }

    /** Consumed rows that are still held because their chunk is not used up. */
    function Stale(): seq<Row> {
      if inner <= |Flatten(chunks)| then Flatten(chunks)[..inner] else []
    }

    function Pushed(rows: seq<Row>): Queue { Queue(chunks + [rows], inner) }

    lemma PushedLive(rows: seq<Row>)
      requires Ok() && rows != []
      ensures Pushed(rows).Ok()
      ensures Pushed(rows).Live() == Live() + rows
      ensures Pushed(rows).Stale() == Stale()
    {
      InnerInRange();
      FlattenSnoc(chunks, rows);
      assert chunks == [] ==> (chunks + [rows])[0] == rows;
    }

    /** The queue after k live rows are consumed. */
    function Dropped(k: nat): Queue { Advance(chunks, inner + k) }

    lemma DroppedLive(k: nat)
      requires Ok() && k <= |Live()|
      ensures Dropped(k).Ok()
      ensures Dropped(k).Live() == Live()[k..]
    {
      InnerInRange();
      DropFromAdvance(chunks, inner, k, Live());
    }

    /** What is still held of the consumed rows was held before or has just been consumed. */
    lemma DroppedStale(k: nat)
      requires Ok() && k <= |Live()|
      ensures forall x :: x in Dropped(k).Stale() ==> x in Stale() || x in Live()[..k]
    {
      InnerInRange();
      AdvanceStale(chunks, inner + k);
      var flat, stale := Flatten(chunks), Dropped(k).Stale();
      assert Stale() == flat[..inner] && Live() == flat[inner..];
      SplitMembers(flat, inner, k, stale);
    }

    /** No live rows exactly when no chunk is held. */
    lemma EmptyIffNoChunks()
      requires Ok()
      ensures Live() == [] <==> chunks == []
    {
      InnerInRange();
    }
  }

  /** The queue whose first p rows are consumed; used-up chunks are dropped. */
  function Advance(chunks: seq<seq<Row>>, p: nat): Queue {
    if chunks == [] then Queue([], 0)
    else if p < |chunks[0]| then Queue(chunks, p)
    else Advance(chunks[1..], p - |chunks[0]|)
  }

  lemma {:induction false} DropFromAdvance(chunks: seq<seq<Row>>, inner: nat, k: nat, live: seq<Row>)
    requires forall i :: 0 <= i < |chunks| ==> chunks[i] != []
    requires inner <= |Flatten(chunks)| && live == Flatten(chunks)[inner..] && k <= |live|
    ensures Advance(chunks, inner + k).Ok() && Advance(chunks, inner + k).Live() == live[k..]
  {
    AdvanceLive(chunks, inner + k);
    DropBoth(Flatten(chunks), inner, k);
  }

  lemma BehindFirst<T>(a: seq<T>, b: seq<T>, m: nat, n: nat)
    requires n <= m <= |b|
    ensures (a + b)[|a| + m..] == b[m..] && (a + b)[|a| + m - n..|a| + m] == b[m - n..m]
  {
  }

  lemma {:induction false} AdvanceLive(chunks: seq<seq<Row>>, p: nat)
    requires p <= |Flatten(chunks)|
    requires forall k :: 0 <= k < |chunks| ==> chunks[k] != []
    ensures Advance(chunks, p).Ok()
    ensures Advance(chunks, p).Live() == Flatten(chunks)[p..]
  {
    if chunks != [] && p >= |chunks[0]| {
      var rest, m := chunks[1..], p - |chunks[0]|;
      AdvanceLive(rest, m);
      BehindFirst(chunks[0], Flatten(rest), m, 0);
    }
  }

  lemma {:induction false} AdvanceStale(chunks: seq<seq<Row>>, p: nat)
    requires p <= |Flatten(chunks)|
    ensures |Advance(chunks, p).Stale()| <= p
    ensures Advance(chunks, p).Stale() == Flatten(chunks)[p - |Advance(chunks, p).Stale()|..p]
  {
    if chunks != [] && p >= |chunks[0]| {
      var rest, m := chunks[1..], p - |chunks[0]|;
      AdvanceStale(rest, m);
      BehindFirst(chunks[0], Flatten(rest), m, |Advance(rest, m).Stale()|);
    }
  }

  lemma {:induction false} AdvanceAt(chunks: seq<seq<Row>>, o: nat, i: nat)
    requires o < |chunks| && i < |chunks[o]|
    ensures Advance(chunks, Offset(chunks, o) + i) == Queue(chunks[o..], i)
  {
    if o > 0 {
      AdvanceAt(chunks[1..], o - 1, i);
      assert chunks[1..][o - 1..] == chunks[o..];
    }
  }

  lemma {:induction false} AdvanceAll(chunks: seq<seq<Row>>)
    ensures Advance(chunks, |Flatten(chunks)|) == Queue([], 0)
  {
    if chunks != [] {
      AdvanceAll(chunks[1..]);
    }
  }

  // ----- consuming with a callback -----

  /**
   * Calls f on rows[i], rows[i+1], ... threading its state, until f answers
   * true or the rows run out. Returns the state and the index of the first row
   * that stays in the queue.
   */
  function Consume<S>(f: (S, Row) -> (S, bool), s: S, rows: seq<Row>, i: nat): (r: (S, nat))
    requires i <= |rows|
    ensures i <= r.1 <= |rows|
    decreases |rows| - i
  {
    if i == |rows| then (s, i)
    else
      var (s', done) := f(s, rows[i]);
      if done then (s', i) else Consume(f, s', rows, i + 1)
  }

  /** The state after f has seen all the given rows, whatever it answered. */
  function Fold<S>(f: (S, Row) -> (S, bool), s: S, rows: seq<Row>): S {
    if rows == [] then s else Fold(f, f(s, rows[0]).0, rows[1..])
  }

  lemma {:induction false} FoldSnoc<S>(f: (S, Row) -> (S, bool), s: S, rows: seq<Row>, row: Row)
    ensures Fold(f, s, rows + [row]) == f(Fold(f, s, rows), row).0
  {
    if rows == [] {
      assert rows + [row] == [row];
      assert Fold(f, f(s, row).0, []) == f(s, row).0;
    } else {
      FoldSnoc(f, f(s, rows[0]).0, rows[1..], row);
      assert (rows + [row])[1..] == rows[1..] + [row];
    }
  }

  /**
   * What the header of consume_each_row promises: f sees the rows in order, up
   * to and including the first one it answers true on, and the rows before that
   * one are the consumed ones.
   */
  lemma {:induction false} ConsumeStopsAtFirstTrue<S>(f: (S, Row) -> (S, bool), s0: S, s: S, rows: seq<Row>, i: nat)
    requires i <= |rows| && s == Fold(f, s0, rows[..i])
    requires forall j :: 0 <= j < i ==> !f(Fold(f, s0, rows[..j]), rows[j]).1
    ensures var (s', k) := Consume(f, s, rows, i);
      && (forall j :: 0 <= j < k ==> !f(Fold(f, s0, rows[..j]), rows[j]).1)
      && (k == |rows| ==> s' == Fold(f, s0, rows))
      && (k < |rows| ==> f(Fold(f, s0, rows[..k]), rows[k]) == (s', true))
    decreases |rows| - i
  {
    if i == |rows| {
      assert rows[..i] == rows;
    } else if !f(s, rows[i]).1 {
      FoldSnoc(f, s0, rows[..i], rows[i]);
      assert rows[..i + 1] == rows[..i] + [rows[i]];
      ConsumeStopsAtFirstTrue(f, s0, f(s, rows[i]).0, rows, i + 1);
    }
  }

  // ----- collecting the timestamps of a window -----

  predicate InWindow(t: TimeStamp, start: TimeStamp, end: TimeStamp) { Ge(t, start) && Lt(t, end) }

  /** Inserts the timestamps of rows[i..] that lie in the window. */
  function Gather(rows: seq<Row>, i: nat, start: TimeStamp, end: TimeStamp, acc: seq<TimeStamp>): seq<TimeStamp>
    requires i <= |rows|
    decreases |rows| - i
  {
    if i == |rows| then acc
    else Gather(rows, i + 1, start, end, if InWindow(rows[i].ts, start, end) then Insert(acc, rows[i].ts) else acc)
  }

  lemma {:induction false} GatherAscending(rows: seq<Row>, i: nat, start: TimeStamp, end: TimeStamp,
        acc: seq<TimeStamp>)
    requires i <= |rows| && Ascending(acc)
    ensures Ascending(Gather(rows, i, start, end, acc))
    decreases |rows| - i
  {
    if i < |rows| {
      InsertElements(acc, rows[i].ts);
      GatherAscending(rows, i + 1, start, end,
        if InWindow(rows[i].ts, start, end) then Insert(acc, rows[i].ts) else acc);
    }
  }

  lemma {:induction false} GatherElements(rows: seq<Row>, i: nat, start: TimeStamp, end: TimeStamp,
        acc: seq<TimeStamp>, t: TimeStamp)
    requires i <= |rows|
    ensures t in Gather(rows, i, start, end, acc) <==>
            t in acc || (InWindow(t, start, end) && exists j :: i <= j < |rows| && rows[j].ts == t)
    decreases |rows| - i
  {
    if i < |rows| {
      InsertElements(acc, rows[i].ts);
      GatherElements(rows, i + 1, start, end,
        if InWindow(rows[i].ts, start, end) then Insert(acc, rows[i].ts) else acc, t);
    }
  }
}
