/**
 * A run in which the listener gets its turn between the reactor's choice of a
 * window and the extraction, and brings a row from before the window.
 */
module RaceExamples {
  import opened Results
  import opened TimeStamps
  import opened TimeTables
  import opened RowQueues
  import opened TableBuffers
  import opened TimeBoundsOf
  import opened Merging
  import opened MergeTrace
  import opened Alignment
  import opened Runs
  import opened Frontiers
  import opened RunSoundness
  import opened LossExamples

  const ROW := At(10, 1)

  const LATE := [At(9, 1), At(10, 1)]

  /**
   * PV 0 sends a row at 10 s and the reactor chooses the window from there; PV 1
   * sends rows at 9 s and 10 s; the window is taken, and then another one.
   */
  const RACE :=
    [Push(0, [ROW])] + ([Look(0)] + ([Push(1, LATE)] + ([Take(0)] + ([Look(0)] + ([Take(0)] + [])))))

  /** What the first take finds, and what the second. */
  const FOUND := [Queue([[ROW]], 0), Queue([LATE], 0)]

  const LEFT := [EMPTY, Queue([LATE], 1)]

  lemma LateRows()
    ensures Flatten([LATE]) == LATE && Queue([LATE], 0).Ok() && Queue([LATE], 0).Live() == LATE
    ensures Queue([LATE], 1).Ok() && Queue([LATE], 1).Live() == [ROW] && AscendingRows(LATE)
  {
    assert Flatten([LATE]) == LATE + Flatten<Row>([]);
    assert LATE[1..] == [ROW];
  }

  // ----- the windows -----

  /** With rows in one of two buffers, the time of its first row. */
  lemma OneBound(qs: seq<Queue>, a: TimeSpan, b: TimeSpan)
    requires |qs| == 2 && a == SpanOf(qs[0].Live()) && b == SpanOf(qs[1].Live()) && a.valid != b.valid
    ensures BoundsOf(Spans(qs)) == Widen(RESET, if a.valid then a else b)
  {
    var spans := Spans(qs);
    assert spans[0] == a && spans[1] == b;
    assert BoundsOfFirst(spans, 1) == Widen(RESET, a);
    assert BoundsOfFirst(spans, 2) == Widen(BoundsOfFirst(spans, 1), b);
  }

  lemma ChoosesTen(qs: seq<Queue>)
    requires |qs| == 2
    requires (qs[0].Live() == [ROW] && qs[1].Live() == []) || (qs[0].Live() == [] && qs[1].Live() == [ROW])
    ensures LookAt(CFG, qs, 0, 0) == Go(Five(10))
  {
    OneBound(qs, SpanOf(qs[0].Live()), SpanOf(qs[1].Live()));
    var t := TimeStamp(10, 0, 0);
    assert SpanOf([ROW]) == TimeSpan(true, t, t);
    assert Widen(RESET, TimeSpan(true, t, t)) == TimeBounds(true, t, t, t, t);
    assert AddTicks(TimeStamp(10, 0, 0), CFG.period) == TimeStamp(15, 0, 0);
  }

  /** Both takes find only the time of 10 s in their window. */
  lemma OnlyTen(qs: seq<Queue>, a: seq<Row>)
    requires |qs| == 2 && Flatten(qs[0].chunks) == a && (a == [] || a == [ROW]) && qs[1].chunks == [LATE]
    ensures Union(qs, Five(10).start, Five(10).end) == [ROW.ts]
  {
    LateRows();
    assert Stamps(LATE)[1] == ROW.ts;
    UnionOfTwo(qs, Five(10), a, LATE, [ROW.ts]);
  }

  // ----- the first take -----

  lemma {:induction false} TenIsUsedUp(u: seq<TimeStamp>)
    requires u == [ROW.ts]
    ensures MergeBuffer(u, Five(10).end, [], [ROW]).1 == 1
  {
    assert CommonRun(u, [ROW], 1) == 1;
    MergeExact(u, Five(10).end, [], [ROW]);
  }

  /** PV 1's row at 9 s skips the only output row, so the row at 10 s finds none and stays. */
  lemma {:induction false} EarlyRowSkips(u: seq<TimeStamp>, end: TimeStamp, rows: seq<Row>)
    requires u == [ROW.ts] && end == Five(10).end && rows == LATE
    ensures MergeBuffer(u, end, [], rows).1 == 1 && Untouched(MergeBuffer(u, end, [], rows).0, 0)
  {
    var c := MergeBuffer(u, end, [], rows).1;
    assert Cursor(u, rows, 0) == 0 && Cursor(u, rows, 1) == 1;
    MergeStops(u, end, [], rows);
    StopsAtOne(u, end, rows, c);
    assert SkipsAt(u, end, rows, 0, 0);
    TraceExact(u, end, [], rows, 0);
  }

  lemma {:induction false} StopsAtOne(u: seq<TimeStamp>, end: TimeStamp, rows: seq<Row>, c: nat)
    requires StopsBefore(u, end, rows, c) && |rows| == 2 && |u| == 1 && Le(rows[0].ts, end)
    requires Cursor(u, rows, 0) == 0 && Cursor(u, rows, 1) == 1
    ensures c == 1
  {
    if c == 0 {
      ReachedSnoc(u, end, rows, 0);
    }
  }

  function FirstPost(): Extraction { Extracted(FOUND, CFG.types, Five(10).start, Five(10).end) }

  function SecondPost(): Extraction { Extracted(LEFT, CFG.types, Five(10).start, Five(10).end) }

  function Between(): Sys { Holding(LEFT[0], LEFT[1], [FirstPost()]) }

  lemma DropsOne()
    ensures Queue([[ROW]], 0).Dropped(1) == EMPTY && Queue([LATE], 0).Dropped(1) == Queue([LATE], 1)
  {
    assert [[ROW]][1..] == [];
    assert Advance([], 0) == EMPTY;
  }

  lemma FirstTaken()
    ensures Taken(CFG, Holding(FOUND[0], FOUND[1], []), Five(10), 0) == Between()
  {
    var w := Five(10);
    LateRows();
    OneRow(ROW);
    OnlyTen(FOUND, [ROW]);
    TenIsUsedUp([ROW.ts]);
    EarlyRowSkips([ROW.ts], w.end, LATE);
    DropsOne();
    assert CFG.types[0] == [] && CFG.types[1] == [];
    assert AfterExtract(FOUND, CFG.types, w.start, w.end) == LEFT;
  }

  // ----- the run -----

  lemma {:induction false} ToTheRace(later: seq<Event>)
    ensures Run(CFG, Initial(CFG, 0), [Push(0, [ROW])] + ([Look(0)] + later)) ==
            Run(CFG, Holding(FOUND[0], EMPTY, []).(pending := Some(Five(10))), later)
    ensures Orderly(CFG, Holding(FOUND[0], EMPTY, []).(pending := Some(Five(10))), MIN_TS, later) ==>
            Orderly(CFG, Initial(CFG, 0), MIN_TS, [Push(0, [ROW])] + ([Look(0)] + later))
  {
    var s := Holding(FOUND[0], EMPTY, []);
    assert |CFG.types| == 2;
    assert Initial(CFG, 0).queues == [EMPTY, EMPTY];
    EmptyFirst([ROW]);
    Sends(Initial(CFG, 0), 0, [ROW], MIN_TS, s, [Look(0)] + later);
    OneRow(ROW);
    ChoosesTen(s.queues);
    First(s, MIN_TS, Look(0), later, s.(pending := Some(Five(10))), MIN_TS);
  }

  lemma {:induction false} TheRace(later: seq<Event>)
    ensures Run(CFG, Holding(FOUND[0], EMPTY, []).(pending := Some(Five(10))), [Push(1, LATE)] + ([Take(0)] + later)) ==
            Run(CFG, Between(), later)
    ensures Orderly(CFG, Between(), Five(10).end, later) ==>
            Orderly(CFG, Holding(FOUND[0], EMPTY, []).(pending := Some(Five(10))), MIN_TS,
                    [Push(1, LATE)] + ([Take(0)] + later))
  {
    var s := Holding(FOUND[0], EMPTY, []).(pending := Some(Five(10)));
    var t := s.(queues := FOUND);
    LateRows();
    EmptyFirst(LATE);
    Sends(s, 1, LATE, MIN_TS, t, [Take(0)] + later);
    FirstTaken();
    First(t, MIN_TS, Take(0), later, Between(), Five(10).end);
  }

  function AfterRace(): Sys { Taken(CFG, Between(), Five(10), 0) }

  lemma {:induction false} WholeRace()
    ensures Run(CFG, Initial(CFG, 0), RACE) == AfterRace() && Orderly(CFG, Initial(CFG, 0), MIN_TS, RACE)
  {
    ToTheRace([Push(1, LATE)] + ([Take(0)] + ([Look(0)] + ([Take(0)] + []))));
    TheRace([Look(0)] + ([Take(0)] + []));
    LateRows();
    ChoosesTen(LEFT);
    Cycle(Between(), Five(10).end, Five(10), []);
  }

  lemma RacePosts()
    ensures FirstPost().u == [ROW.ts] && |FirstPost().grids| == 2 && Untouched(FirstPost().grids[1], 0)
    ensures SecondPost().u == [ROW.ts]
  {
    LateRows();
    OneRow(ROW);
    OnlyTen(FOUND, [ROW]);
    OnlyTen(LEFT, []);
    EarlyRowSkips([ROW.ts], Five(10).end, LATE);
    assert CFG.types[1] == [];
  }

  /**
   * Each PV sends ascending rows, and nothing from before the end of a window
   * that was taken. Yet both tables publish exactly the time of 10 s, the first
   * one leaves PV 1's row unwritten, and what PV 1 keeps behind it lies five
   * seconds before the end of that window. So the take found a row from before
   * its window and ran out of output rows before the window's end.
   */
  lemma {:induction false} RaceRepeatsTime()
    ensures Orderly(CFG, Initial(CFG, 0), MIN_TS, RACE)
    ensures var posts := Run(CFG, Initial(CFG, 0), RACE).posts;
      && |posts| == 2 && posts[0].u == [ROW.ts] && posts[1].u == [ROW.ts]
      && |posts[0].grids| == 2 && Untouched(posts[0].grids[1], 0)
    ensures Run(CFG, Initial(CFG, 0), RACE) == Run(CFG, Between(), [Look(0)] + ([Take(0)] + []))
    ensures Between().queues[1].Live() == [ROW] && Lt(ROW.ts, Five(10).end)
    ensures !TimesIncrease(Run(CFG, Initial(CFG, 0), RACE).posts) && !KeptUntilLast(CFG, Initial(CFG, 0), RACE)
    ensures !NeverEarly(CFG, Initial(CFG, 0), RACE)
  {
    WholeRace();
    RacePosts();
    LateRows();
    ToTheRace([Push(1, LATE)] + ([Take(0)] + ([Look(0)] + ([Take(0)] + []))));
    TheRace([Look(0)] + ([Take(0)] + []));
    RaceBreaks(Run(CFG, Initial(CFG, 0), RACE).posts);
  }

  lemma {:induction false} RaceBreaks(posts: seq<Extraction>)
    requires posts == Run(CFG, Initial(CFG, 0), RACE).posts && Orderly(CFG, Initial(CFG, 0), MIN_TS, RACE)
    requires |posts| == 2 && posts[0].u == [ROW.ts] && posts[1].u == [ROW.ts]
    requires |posts[0].grids| == 2 && Untouched(posts[0].grids[1], 0)
    ensures !TimesIncrease(posts) && !KeptUntilLast(CFG, Initial(CFG, 0), RACE)
    ensures !NeverEarly(CFG, Initial(CFG, 0), RACE)
  {
    InitialInv(CFG, 0);
    assert !Lt(posts[0].u[0], posts[1].u[0]);
    TimesIncreaseIff(CFG, Initial(CFG, 0), MIN_TS, RACE);
    OrderlyIsWellFormed(CFG, Initial(CFG, 0), MIN_TS, RACE);
    FlagsWrittenIff(CFG, Initial(CFG, 0), RACE);
    assert !FlagsWritten(posts[0].grids[1], |posts[0].u|);
    assert !PostFlagged(posts[0]);
  }
}
