/** Runs in which rows get lost, and in which the way a PV's rows were split into updates shows. */
module LossExamples {
  import opened Results
  import opened TimeStamps
  import opened TimeTables
  import opened RowQueues
  import opened TableBuffers
  import opened TimeBoundsOf
  import opened Merging
  import opened MergeTrace
  import opened Alignment
  import opened Runs
  import opened Frontiers
  import opened RunSoundness
  import opened RunLossless
  import opened RunLosses

  function At(sec: nat, pulse: nat): Row { Row(TimeStamp(sec, 0, pulse), []) }

  /** Two PVs without data columns, a period of five seconds, timeout 0. */
  const CFG := Config([[], []], 5 * NSEC_PER_SEC, 0)

  const FLOOR := TimeStamp(10, 0, 0)

  /**
   * PV 1 sends a row at 5 s; PV 0 sends rows at 10 s, pulse id 0, and 12 s, in
   * one update or in two; a window is taken.
   */
  function Schedule(split: bool, later: seq<Event>): seq<Event> {
    [Push(1, [At(5, 1)])] + Updates(split, [Look(0)] + ([Take(0)] + later))
  }

  function Updates(split: bool, later: seq<Event>): seq<Event> {
    if split then [Push(0, [At(10, 0)])] + ([Push(0, [At(12, 1)])] + later)
    else [Push(0, [At(10, 0), At(12, 1)])] + later
  }

  /** Then PV 1 sends a row at 10 s, pulse id 5, and the next window is taken. */
  const SECOND := [Push(1, [At(10, 5)])] + ([Look(0)] + ([Take(0)] + []))

  function Chunks(split: bool): seq<seq<Row>> {
    if split then [[At(10, 0)], [At(12, 1)]] else [[At(10, 0), At(12, 1)]]
  }

  // ----- steps of the runs -----

  lemma {:induction false} First(s: Sys, floor: TimeStamp, e: Event, later: seq<Event>, t: Sys, floor': TimeStamp)
    requires |s.queues| == |CFG.types| && t == Step(CFG, s, e) && floor' == NextFloor(s, floor, e)
    requires Admissible(CFG, s, e) && NothingOld(s, floor, e)
    ensures Run(CFG, s, [e] + later) == Run(CFG, t, later)
    ensures Orderly(CFG, t, floor', later) ==> Orderly(CFG, s, floor, [e] + later)
  {
    assert ([e] + later)[0] == e && ([e] + later)[1..] == later;
  }

  /** Two queues, and nothing chosen. */
  function Holding(q0: Queue, q1: Queue, posts: seq<Extraction>): Sys { Sys([q0, q1], None, 0, true, posts) }

  const EMPTY := Queue([], 0)

  /** PV b sends rows that continue its queue. */
  lemma {:induction false} Sends(s: Sys, b: nat, rows: seq<Row>, floor: TimeStamp, t: Sys, later: seq<Event>)
    requires |s.queues| == |t.queues| == 2 && b < 2 && rows != []
    requires t.queues == s.queues[b := t.queues[b]] && t == s.(queues := t.queues)
    requires t.queues[b].chunks == s.queues[b].chunks + [rows] && t.queues[b].inner == s.queues[b].inner
    requires AscendingRows(s.queues[b].Live() + rows) && RowsInRange(rows) && Wide(rows, 0) && AllFrom(rows, floor)
    ensures Run(CFG, s, [Push(b, rows)] + later) == Run(CFG, t, later)
    ensures Orderly(CFG, t, floor, later) ==> Orderly(CFG, s, floor, [Push(b, rows)] + later)
  {
    assert CFG.types[b] == [];
    First(s, floor, Push(b, rows), later, t, floor);
  }

  /** The reactor chooses a window and takes it. */
  lemma {:induction false} Cycle(s: Sys, floor: TimeStamp, w: Window, later: seq<Event>)
    requires |s.queues| == 2 && s.pending == None && s.running && LookAt(CFG, s.queues, s.lastUpdate, 0) == Go(w)
    requires NoWrap(w.start, CFG.period) && !Gt(w.start, w.end)
    ensures Run(CFG, s, [Look(0)] + ([Take(0)] + later)) == Run(CFG, Taken(CFG, s, w, 0), later)
    ensures Orderly(CFG, Taken(CFG, s, w, 0), w.end, later) ==>
            Orderly(CFG, s, floor, [Look(0)] + ([Take(0)] + later))
  {
    var t := s.(pending := Some(w));
    First(s, floor, Look(0), [Take(0)] + later, t, floor);
    First(t, floor, Take(0), later, Taken(CFG, s, w, 0), w.end);
  }

  // ----- the first window -----

  lemma FlatChunks(split: bool)
    ensures Flatten(Chunks(split)) == [At(10, 0), At(12, 1)]
    ensures Queue(Chunks(split), 0).Ok() && Queue(Chunks(split), 0).Live() == [At(10, 0), At(12, 1)]
  {
    OneRow(At(12, 1));
    if split {
      assert Chunks(split)[1..] == [[At(12, 1)]];
      assert Flatten(Chunks(split)) == [At(10, 0)] + Flatten([[At(12, 1)]]);
    } else {
      assert Flatten(Chunks(split)) == [At(10, 0), At(12, 1)] + Flatten<Row>([]);
    }
  }

  lemma OneRow(row: Row)
    ensures Flatten([[row]]) == [row] && Queue([[row]], 0).Ok() && Queue([[row]], 0).Live() == [row]
  {
    assert Flatten([[row]]) == [row] + Flatten<Row>([]);
  }

  /** What is held when the first window is chosen. */
  function Held(split: bool): seq<Queue> { [Queue(Chunks(split), 0), Queue([[At(5, 1)]], 0)] }

  function BeforeFirst(split: bool): Sys { Holding(Held(split)[0], Held(split)[1], []) }

  lemma TwoRows(a: Row, b: Row)
    requires Lt(a.ts, b.ts)
    ensures AscendingRows([a] + [b]) && AscendingRows([a, b])
  {
  }

  lemma EmptyFirst(rows: seq<Row>)
    ensures EMPTY.Live() + rows == rows && EMPTY.chunks + [rows] == [rows]
  {
  }

  lemma {:induction false} OneUpdate(x: Row, y: Row, q1: Queue, later: seq<Event>)
    requires x == At(10, 0) && y == At(12, 1)
    ensures Run(CFG, Holding(EMPTY, q1, []), [Push(0, [x, y])] + later) ==
            Run(CFG, Holding(Queue([[x, y]], 0), q1, []), later)
    ensures Orderly(CFG, Holding(Queue([[x, y]], 0), q1, []), MIN_TS, later) ==>
            Orderly(CFG, Holding(EMPTY, q1, []), MIN_TS, [Push(0, [x, y])] + later)
  {
    TwoRows(x, y);
    var rows := [x, y];
    EmptyFirst(rows);
    Sends(Holding(EMPTY, q1, []), 0, rows, MIN_TS, Holding(Queue([rows], 0), q1, []), later);
  }

  lemma {:induction false} TwoUpdates(x: Row, y: Row, q1: Queue, later: seq<Event>)
    requires x == At(10, 0) && y == At(12, 1)
    ensures Run(CFG, Holding(EMPTY, q1, []), [Push(0, [x])] + ([Push(0, [y])] + later)) ==
            Run(CFG, Holding(Queue([[x], [y]], 0), q1, []), later)
    ensures Orderly(CFG, Holding(Queue([[x], [y]], 0), q1, []), MIN_TS, later) ==>
            Orderly(CFG, Holding(EMPTY, q1, []), MIN_TS, [Push(0, [x])] + ([Push(0, [y])] + later))
  {
    TwoRows(x, y);
    EmptyFirst([x]);
    OneRow(x);
    var s := Holding(Queue([[x]], 0), q1, []);
    Sends(Holding(EMPTY, q1, []), 0, [x], MIN_TS, s, [Push(0, [y])] + later);
    assert [[x]] + [[y]] == [[x], [y]];
    Sends(s, 0, [y], MIN_TS, Holding(Queue([[x], [y]], 0), q1, []), later);
  }

  lemma {:induction false} FirstUpdate(q1: Queue, later: seq<Event>)
    requires q1 == Queue([[At(5, 1)]], 0)
    ensures Run(CFG, Initial(CFG, 0), [Push(1, [At(5, 1)])] + later) == Run(CFG, Holding(EMPTY, q1, []), later)
    ensures Orderly(CFG, Holding(EMPTY, q1, []), MIN_TS, later) ==>
            Orderly(CFG, Initial(CFG, 0), MIN_TS, [Push(1, [At(5, 1)])] + later)
  {
    assert |CFG.types| == 2;
    assert Initial(CFG, 0).queues == [EMPTY, EMPTY];
    EmptyFirst([At(5, 1)]);
    Sends(Initial(CFG, 0), 1, [At(5, 1)], MIN_TS, Holding(EMPTY, q1, []), later);
  }

  /** With two buffers, the earliest of their first times. */
  lemma TwoBounds(qs: seq<Queue>, a: TimeSpan, b: TimeSpan)
    requires |qs| == 2 && a == SpanOf(qs[0].Live()) && b == SpanOf(qs[1].Live()) && a.valid && b.valid
    requires Le(a.start, MAX_TS) && Le(b.start, MAX_TS)
    ensures BoundsOf(Spans(qs)).valid && BoundsOf(Spans(qs)).earliestStart == Min(b.start, Min(a.start, MAX_TS))
  {
    var spans := Spans(qs);
    assert spans[0] == a && spans[1] == b;
    assert BoundsOfFirst(spans, 1) == Widen(RESET, a);
    assert BoundsOfFirst(spans, 2) == Widen(BoundsOfFirst(spans, 1), b);
  }

  /** The window of five seconds that starts at a full second. */
  function Five(sec: nat): Window { Window(TimeStamp(sec, 0, 0), TimeStamp(sec + 5, 0, 0)) }

  lemma FirstWindow(split: bool)
    ensures LookAt(CFG, Held(split), 0, 0) == Go(Five(5))
  {
    FlatChunks(split);
    OneRow(At(5, 1));
    var qs := Held(split);
    TwoBounds(qs, SpanOf(qs[0].Live()), SpanOf(qs[1].Live()));
    assert AddTicks(TimeStamp(5, 0, 0), CFG.period) == TimeStamp(10, 0, 0);
  }

  /** Only the row at 5 s lies in the first window. */
  lemma FirstTimes(split: bool)
    ensures Union(Held(split), Five(5).start, Five(5).end) == [At(5, 1).ts]
  {
    var qs, w := Held(split), Five(5);
    FlatChunks(split);
    OneRow(At(5, 1));
    UnionIsHeldWindow(qs, w.start, w.end);
    assert Flatten(qs[1].chunks)[0] == At(5, 1);
    assert HeldBy(qs[1], At(5, 1).ts);
    AscendingUnique(Union(qs, w.start, w.end), [At(5, 1).ts]);
  }

  lemma HeldReady(split: bool, start: TimeStamp)
    requires start == Five(5).start
    ensures AllReady(Held(split), CFG.types, start)
  {
    FlatChunks(split);
    OneRow(At(5, 1));
    TwoRows(At(10, 0), At(12, 1));
    assert CFG.types[0] == [] && CFG.types[1] == [];
  }

  /** PV 0 has no row in the window, but uses up its row at the very end of it. */
  lemma {:induction false} RowAtEndIsConsumed(split: bool, u: seq<TimeStamp>)
    requires u == [At(5, 1).ts]
    ensures CommonRun(u, [At(10, 0), At(12, 1)], 0) == 0
    ensures MergeBuffer(u, Five(5).end, [], [At(10, 0), At(12, 1)]).1 == 1
  {
    var rows := [At(10, 0), At(12, 1)];
    TwoRows(At(10, 0), At(12, 1));
    MergeExact(u, Five(5).end, [], rows);
    assert !Gt(rows[0].ts, Five(5).end) && !Le(rows[1].ts, Five(5).end);
  }

  lemma RowInsideIsReported(u: seq<TimeStamp>)
    requires u == [At(5, 1).ts]
    ensures MergeBuffer(u, Five(5).end, [], [At(5, 1)]).1 == 1
  {
    var rows := [At(5, 1)];
    assert CommonRun(u, rows, 1) == 1;
    MergeExact(u, Five(5).end, [], rows);
  }

  /** What stays held of PV 0: the consumed row stays in front if it came in one update with the next one. */
  function Rest(split: bool): Queue {
    if split then Queue([[At(12, 1)]], 0) else Queue([[At(10, 0), At(12, 1)]], 1)
  }

  lemma DropFirst(split: bool)
    ensures Queue(Chunks(split), 0).Dropped(1) == Rest(split) && Queue([[At(5, 1)]], 0).Dropped(1) == EMPTY
  {
    assert [[At(10, 0)], [At(12, 1)]][1..] == [[At(12, 1)]];
    assert [[At(5, 1)]][1..] == [];
    assert Advance([[At(12, 1)]], 0) == Queue([[At(12, 1)]], 0);
    assert Advance([], 0) == EMPTY;
  }

  /** The state behind the first window. */
  function AfterFirst(split: bool): Sys {
    Holding(Rest(split), EMPTY, [Extracted(Held(split), CFG.types, Five(5).start, Five(5).end)])
  }

  lemma FirstTake(split: bool)
    ensures Taken(CFG, BeforeFirst(split), Five(5), 0) == AfterFirst(split)
  {
    var w := Five(5);
    FlatChunks(split);
    OneRow(At(5, 1));
    FirstTimes(split);
    RowAtEndIsConsumed(split, [At(5, 1).ts]);
    RowInsideIsReported([At(5, 1).ts]);
    DropFirst(split);
    assert CFG.types[0] == [] && CFG.types[1] == [];
    assert AfterExtract(Held(split), CFG.types, w.start, w.end) == [Rest(split), EMPTY];
  }

  /** The runs up to the first table. */
  lemma {:induction false} ToFirstTable(split: bool, later: seq<Event>)
    ensures Run(CFG, Initial(CFG, 0), Schedule(split, later)) == Run(CFG, AfterFirst(split), later)
    ensures Orderly(CFG, AfterFirst(split), FLOOR, later) ==>
            Orderly(CFG, Initial(CFG, 0), MIN_TS, Schedule(split, later))
  {
    var table, q1 := [Look(0)] + ([Take(0)] + later), Queue([[At(5, 1)]], 0);
    FirstUpdate(q1, Updates(split, table));
    if split { TwoUpdates(At(10, 0), At(12, 1), q1, table); } else { OneUpdate(At(10, 0), At(12, 1), q1, table); }
    FirstWindow(split);
    FirstTake(split);
    Cycle(BeforeFirst(split), MIN_TS, Five(5), later);
  }

  // ----- the second window -----

  lemma RestIsLast(split: bool)
    ensures Rest(split).Ok() && Rest(split).Live() == [At(12, 1)]
    ensures Flatten(Rest(split).chunks) == if split then [At(12, 1)] else [At(10, 0), At(12, 1)]
  {
    OneRow(At(12, 1));
    FlatChunks(false);
    assert [At(10, 0), At(12, 1)][1..] == [At(12, 1)];
  }

  /** What is held when the second window is chosen. */
  function HeldThen(split: bool): seq<Queue> { [Rest(split), Queue([[At(10, 5)]], 0)] }

  function BeforeSecond(split: bool): Sys { Holding(HeldThen(split)[0], HeldThen(split)[1], AfterFirst(split).posts) }

  lemma SecondWindow(split: bool)
    ensures LookAt(CFG, HeldThen(split), 0, 0) == Go(Five(10))
  {
    RestIsLast(split);
    OneRow(At(10, 5));
    var qs := HeldThen(split);
    TwoBounds(qs, SpanOf(qs[0].Live()), SpanOf(qs[1].Live()));
    assert AddTicks(TimeStamp(10, 0, 0), CFG.period) == TimeStamp(15, 0, 0);
  }

  /** The state after the whole run. */
  function Final(split: bool): Sys { Taken(CFG, BeforeSecond(split), Five(10), 0) }

  lemma {:induction false} WholeRun(split: bool)
    ensures Orderly(CFG, Initial(CFG, 0), MIN_TS, Schedule(split, SECOND))
    ensures Run(CFG, Initial(CFG, 0), Schedule(split, SECOND)) == Final(split)
  {
    ToFirstTable(split, SECOND);
    EmptyFirst([At(10, 5)]);
    Sends(AfterFirst(split), 1, [At(10, 5)], FLOOR, BeforeSecond(split), [Look(0)] + ([Take(0)] + []));
    SecondWindow(split);
    Cycle(BeforeSecond(split), FLOOR, Five(10), []);
  }

  /** The union of two buffers, from the rows they hold. */
  lemma UnionOfTwo(qs: seq<Queue>, w: Window, a: seq<Row>, b: seq<Row>, times: seq<TimeStamp>)
    requires |qs| == 2 && Flatten(qs[0].chunks) == a && Flatten(qs[1].chunks) == b && Ascending(times)
    requires forall i :: 0 <= i < |times| ==> InWindow(times[i], w.start, w.end)
    requires forall i :: 0 <= i < |times| ==> times[i] in Stamps(a) || times[i] in Stamps(b)
    requires forall j :: 0 <= j < |a| && InWindow(a[j].ts, w.start, w.end) ==> a[j].ts in times
    requires forall j :: 0 <= j < |b| && InWindow(b[j].ts, w.start, w.end) ==> b[j].ts in times
    ensures Union(qs, w.start, w.end) == times
  {
    UnionIsHeldWindow(qs, w.start, w.end);
    forall i | 0 <= i < |times| ensures times[i] in Union(qs, w.start, w.end) {
      var b' := if times[i] in Stamps(a) then 0 else 1;
      var rows := if times[i] in Stamps(a) then a else b;
      var j :| 0 <= j < |rows| && Stamps(rows)[j] == times[i];
      assert Flatten(qs[b'].chunks)[j].ts == times[i];
      assert HeldBy(qs[b'], times[i]);
    }
    AscendingUnique(Union(qs, w.start, w.end), times);
  }

  /** The times of the second table: in one update, the row consumed before heads them. */
  lemma SecondTimes(split: bool)
    ensures Union(HeldThen(split), Five(10).start, Five(10).end) ==
            if split then [At(10, 5).ts, At(12, 1).ts] else [At(10, 0).ts, At(10, 5).ts, At(12, 1).ts]
  {
    RestIsLast(split);
    OneRow(At(10, 5));
    var x, y, z := At(10, 0), At(12, 1), At(10, 5);
    assert Stamps([z])[0] == z.ts;
    if split {
      assert Stamps([y])[0] == y.ts;
      UnionOfTwo(HeldThen(true), Five(10), [y], [z], [z.ts, y.ts]);
    } else {
      assert Stamps([x, y])[0] == x.ts && Stamps([x, y])[1] == y.ts;
      UnionOfTwo(HeldThen(false), Five(10), [x, y], [z], [x.ts, z.ts, y.ts]);
    }
  }

  // ----- what the tables show -----

  /** Buffer b begins with a row of another time than the table, so no row of it is shown. */
  lemma NoneShown(qs: seq<Queue>, w: Window, b: nat, e: Extraction)
    requires AllReady(qs, CFG.types, w.start) && b < |qs| && e == Extracted(qs, CFG.types, w.start, w.end)
    requires e.u != [] && qs[b].Live() != [] && qs[b].Live()[0].ts != e.u[0]
    ensures b < |e.grids| && forall r :: 0 <= r < |e.u| ==> !ShownValid(e.grids[b], r)
  {
    ExtractExact(qs, CFG.types, w.start, w.end, b);
    forall r | 0 <= r < |e.u| ensures !ShownValid(e.grids[b], r) {
      assert Blank(e.grids[b], r, CFG.types[b]);
    }
  }

  lemma FirstShown(qs: seq<Queue>, w: Window, b: nat, e: Extraction)
    requires AllReady(qs, CFG.types, w.start) && b < |qs| && e == Extracted(qs, CFG.types, w.start, w.end)
    requires e.u != [] && qs[b].Live() != [] && qs[b].Live()[0].ts == e.u[0]
    ensures b < |e.grids| && ShownValid(e.grids[b], 0)
  {
    ExtractExact(qs, CFG.types, w.start, w.end, b);
    assert Copied(e.grids[b], 0, qs[b].Live()[0]);
  }

  lemma ThenReady(split: bool, start: TimeStamp)
    requires start == Five(10).start
    ensures AllReady(HeldThen(split), CFG.types, start)
  {
    RestIsLast(split);
    OneRow(At(10, 5));
    assert CFG.types[0] == [] && CFG.types[1] == [];
  }

  /** The second table when PV 0 sent one update: no row of it is valid. */
  lemma NothingShown(e: Extraction)
    requires e == Extracted(HeldThen(false), CFG.types, Five(10).start, Five(10).end)
    ensures e.u == [At(10, 0).ts, At(10, 5).ts, At(12, 1).ts]
    ensures |e.grids| == 2 && forall b, r :: 0 <= b < 2 && 0 <= r < 3 ==> !ShownValid(e.grids[b], r)
  {
    SecondTimes(false);
    ThenReady(false, Five(10).start);
    RestIsLast(false);
    OneRow(At(10, 5));
    NoneShown(HeldThen(false), Five(10), 0, e);
    NoneShown(HeldThen(false), Five(10), 1, e);
  }

  /** The second table when PV 0 sent two updates: PV 1's row is valid. */
  lemma LateRowShown(e: Extraction)
    requires e == Extracted(HeldThen(true), CFG.types, Five(10).start, Five(10).end)
    ensures e.u == [At(10, 5).ts, At(12, 1).ts]
    ensures |e.grids| == 2 && ShownValid(e.grids[1], 0)
  {
    SecondTimes(true);
    ThenReady(true, Five(10).start);
    OneRow(At(10, 5));
    FirstShown(HeldThen(true), Five(10), 1, e);
  }

  /** When PV 0 sent one update, the second extraction uses up all rows. */
  lemma {:induction false} NothingKept(b: nat, q': Queue)
    requires b < 2 && q' == AfterExtract(HeldThen(false), CFG.types, Five(10).start, Five(10).end)[b]
    ensures q'.Live() == []
  {
    var w := Five(10);
    var row := if b == 0 then At(12, 1) else At(10, 5);
    SecondTimes(false);
    ThenReady(false, w.start);
    RestIsLast(false);
    OneRow(At(10, 5));
    assert CFG.types[0] == [] && CFG.types[1] == [];
    ExtractFrontier(HeldThen(false), CFG.types, w.start, w.end, b);
    UnionCovers(HeldThen(false), w.start, w.end, b);
    MergeExact(Union(HeldThen(false), w.start, w.end), w.end, [], [row]);
  }

  /**
   * With pulse id 0 the way PV 0 split its rows shows. Sent as one update, its
   * row at 10 s is held on although it was consumed at the end of the first
   * window, and its time, which no table had, heads the second table: the
   * common run of every buffer is empty, no row of the table is valid, and no
   * row stays queued: all are lost. Sent as two, PV 1's row at 10 s is shown.
   */
  lemma SplittingShows()
    ensures forall split :: Orderly(CFG, Initial(CFG, 0), MIN_TS, Schedule(split, SECOND))
    ensures var one, two := Run(CFG, Initial(CFG, 0), Schedule(false, SECOND)).posts,
                            Run(CFG, Initial(CFG, 0), Schedule(true, SECOND)).posts;
      && |one| == |two| == 2 && one != two
      && one[0].u == [At(5, 1).ts] && one[1].u == [At(10, 0).ts, At(10, 5).ts, At(12, 1).ts]
      && |one[1].grids| == |two[1].grids| == 2
      && (forall b, r :: 0 <= b < 2 && 0 <= r < 3 ==> !ShownValid(one[1].grids[b], r))
      && two[1].u == [At(10, 5).ts, At(12, 1).ts] && ShownValid(two[1].grids[1], 0)
    ensures var queues := Run(CFG, Initial(CFG, 0), Schedule(false, SECOND)).queues;
      |queues| == 2 && queues[0].Live() == [] && queues[1].Live() == []
  {
    WholeRun(false);
    WholeRun(true);
    FirstTimes(false);
    NothingShown(Final(false).posts[1]);
    LateRowShown(Final(true).posts[1]);
    assert |Final(false).posts[1].u| != |Final(true).posts[1].u|;
    NothingKept(0, Final(false).queues[0]);
    NothingKept(1, Final(false).queues[1]);
  }

  // ----- rows that are lost -----

  lemma {:induction false} PushedMore(e: Event, later: seq<Event>, b: nat)
    ensures PushedRows([e] + later, b) == Brought(e, b) + PushedRows(later, b)
  {
    assert ([e] + later)[1..] == later;
  }

  lemma {:induction false} PushedForFirst(split: bool)
    ensures PushedRows(Schedule(split, []), 0) == [At(10, 0), At(12, 1)]
  {
    var end := [Look(0)] + ([Take(0)] + []);
    PushedMore(Take(0), [], 0);
    PushedMore(Look(0), [Take(0)] + [], 0);
    assert PushedRows(end, 0) == [];
    if split {
      PushedMore(Push(0, [At(12, 1)]), end, 0);
      PushedMore(Push(0, [At(10, 0)]), [Push(0, [At(12, 1)])] + end, 0);
    } else {
      PushedMore(Push(0, [At(10, 0), At(12, 1)]), end, 0);
    }
    PushedMore(Push(1, [At(5, 1)]), Updates(split, end), 0);
  }

  /** The first table shows no row of PV 0. */
  lemma {:induction false} FirstShowsNone(split: bool, e: Extraction)
    requires e == Extracted(Held(split), CFG.types, Five(5).start, Five(5).end)
    ensures |e.grids| == 2 && ValidRows(e, 0, |e.u|) == []
  {
    FirstTimes(split);
    FlatChunks(split);
    HeldReady(split, Five(5).start);
    RowAtEndIsConsumed(split, e.u);
    assert CFG.types[0] == [];
    var q' := AfterExtract(Held(split), CFG.types, Five(5).start, Five(5).end)[0];
    TakeShows(Held(split), CFG.types, Five(5), 0, e, q', 1);
    assert Cursor(e.u, Held(split)[0].Live(), 0) == 0;
    assert MatchedRows(e.u, Held(split)[0].Live(), 0) == [];
  }

  /** After the first table PV 0 has nothing reported and its last row queued. */
  lemma FirstAccounts(split: bool, s: Sys)
    requires s == AfterFirst(split)
    ensures HasBuffer(s.posts, 0) && Accounted(s, 0) == [At(12, 1)]
  {
    var e := s.posts[0];
    FirstShowsNone(split, e);
    ReportedOneMore([], e, 0);
    assert s.posts == [] + [e];
    RestIsLast(split);
    assert [] + [At(12, 1)] == [At(12, 1)];
  }

  /**
   * A row exactly at the end of a window is lost if its buffer missed a time of
   * the window: after the first table the row of PV 0 at 10 s is neither
   * reported nor queued, however it was sent.
   */
  lemma {:induction false} RowAtEndIsLost(split: bool)
    ensures Orderly(CFG, Initial(CFG, 0), MIN_TS, Schedule(split, []))
    ensures PushedRows(Schedule(split, []), 0) == [At(10, 0), At(12, 1)]
    ensures var s := Run(CFG, Initial(CFG, 0), Schedule(split, []));
      |s.queues| == 2 && HasBuffer(s.posts, 0) && Accounted(s, 0) == [At(12, 1)]
    ensures Lost(CFG, Initial(CFG, 0), Schedule(split, []), 0) == 1
  {
    ToFirstTable(split, []);
    PushedForFirst(split);
    FirstAccounts(split, AfterFirst(split));
    OneLost(Schedule(split, []), AfterFirst(split));
  }

  lemma {:induction false} OneLost(events: seq<Event>, s: Sys)
    requires Orderly(CFG, Initial(CFG, 0), MIN_TS, events) && s == Run(CFG, Initial(CFG, 0), events)
    requires HasBuffer(s.posts, 0) && |Accounted(s, 0)| == 1 && |PushedRows(events, 0)| == 2
    ensures Lost(CFG, Initial(CFG, 0), events, 0) == 1
  {
    OrderlyIsWellFormed(CFG, Initial(CFG, 0), MIN_TS, events);
    NothingLostOverRunIff(CFG, 0, events, 0);
  }

  /** Rows at 1 s and 2 s, and one at 2 s. */
  const GAP := [Queue([[At(1, 1), At(2, 2)]], 0), Queue([[At(2, 2)]], 0)]

  lemma GapReady(w: Window)
    requires w == Window(TimeStamp(1, 0, 0), TimeStamp(4, 0, 0))
    ensures AllReady(GAP, CFG.types, w.start) && Union(GAP, w.start, w.end) == [At(1, 1).ts, At(2, 2).ts]
    ensures GAP[1].Live() == [At(2, 2)]
  {
    var x, y := At(1, 1), At(2, 2);
    TwoRows(x, y);
    OneRow(y);
    assert Flatten([[x, y]]) == [x, y] + Flatten<Row>([]);
    assert CFG.types[0] == [] && CFG.types[1] == [];
    assert Stamps([x, y])[0] == x.ts && Stamps([x, y])[1] == y.ts;
    UnionOfTwo(GAP, w, [x, y], [y], [x.ts, y.ts]);
  }

  /** A row behind a gap is lost too: the second buffer's row at 2 s is neither shown nor kept. */
  lemma RowBehindGapIsLost(w: Window, e: Extraction)
    requires w == Window(TimeStamp(1, 0, 0), TimeStamp(4, 0, 0)) && e == Extracted(GAP, CFG.types, w.start, w.end)
    ensures AllReady(GAP, CFG.types, w.start) && e.u == [At(1, 1).ts, At(2, 2).ts] && GAP[1].Live() == [At(2, 2)]
    ensures |e.grids| == 2 && !ShownValid(e.grids[1], 0) && !ShownValid(e.grids[1], 1)
    ensures AfterExtract(GAP, CFG.types, w.start, w.end)[1].Live() == []
  {
    GapReady(w);
    NoneShown(GAP, w, 1, e);
    ExtractFrontier(GAP, CFG.types, w.start, w.end, 1);
    UnionCovers(GAP, w.start, w.end, 1);
    assert CFG.types[1] == [];
    MergeExact(e.u, w.end, [], [At(2, 2)]);
  }
}
