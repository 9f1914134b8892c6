/** What the merge makes of rows in any order: the trace of the callback, row by row. */
module MergeTrace {
  import opened TimeStamps
  import opened TimeTables
  import opened RowQueues
  import opened Merging

  // ----- where the callback stands -----

  /** The output row the callback stands at when it sees row j, if it has not stopped before. */
  function Cursor(u: seq<TimeStamp>, rows: seq<Row>, j: nat): nat
    requires j <= |rows|
  {
    if j == 0 then 0
    else
      var r := Cursor(u, rows, j - 1);
      if r < |u| && !Gt(rows[j - 1].ts, u[r]) then r + 1 else r
  }

  /** The callback does not stop at one of the first j rows. */
  ghost predicate Reached(u: seq<TimeStamp>, end: TimeStamp, rows: seq<Row>, j: nat)
    requires j <= |rows|
  {
    forall i :: 0 <= i < j ==> Cursor(u, rows, i) < |u| && !Gt(rows[i].ts, end)
  }

  /** Row j is the first one seen at output row r, and already behind it. */
  ghost predicate SkipsAt(u: seq<TimeStamp>, end: TimeStamp, rows: seq<Row>, j: nat, r: nat)
    requires j < |rows|
  {
    && Reached(u, end, rows, j + 1) && Cursor(u, rows, j) == r && (j > 0 ==> Cursor(u, rows, j - 1) != r)
    && r < |u| && Lt(rows[j].ts, u[r])
  }

  ghost predicate SkippedBefore(u: seq<TimeStamp>, end: TimeStamp, rows: seq<Row>, i: nat, r: nat)
    requires i <= |rows|
  {
    exists j :: 0 <= j < i && SkipsAt(u, end, rows, j, r)
  }

  /** The first row seen at output row r is already behind it. */
  ghost predicate PassedOver(u: seq<TimeStamp>, end: TimeStamp, rows: seq<Row>, r: nat) {
    SkippedBefore(u, end, rows, |rows|, r)
  }

  lemma {:induction false} CursorRises(u: seq<TimeStamp>, rows: seq<Row>, i: nat, j: nat)
    requires i <= j <= |rows|
    ensures Cursor(u, rows, i) <= Cursor(u, rows, j)
    decreases j - i
  {
    if i < j { CursorRises(u, rows, i, j - 1); }
  }

  /** A skipped output row is left behind at once. */
  lemma {:induction false} SkippedIsPassed(u: seq<TimeStamp>, end: TimeStamp, rows: seq<Row>, i: nat, r: nat)
    requires i <= |rows| && SkippedBefore(u, end, rows, i, r)
    ensures r < Cursor(u, rows, i)
  {
    var j :| 0 <= j < i && SkipsAt(u, end, rows, j, r);
    CursorRises(u, rows, j + 1, i);
  }

  /** Whether output row r has been written when the callback has seen i rows. */
  ghost predicate WrittenBy(u: seq<TimeStamp>, end: TimeStamp, rows: seq<Row>, i: nat, r: nat)
    requires i <= |rows|
  {
    if r < Cursor(u, rows, i) then !SkippedBefore(u, end, rows, i, r)
    else r == Cursor(u, rows, i) && i > 0 && Cursor(u, rows, i - 1) == r
  }

  /** Row j is copied to output row r. */
  ghost predicate Matches(u: seq<TimeStamp>, end: TimeStamp, rows: seq<Row>, j: nat, r: nat)
    requires j < |rows|
  {
    Reached(u, end, rows, j + 1) && Cursor(u, rows, j) == r && r < |u| && rows[j].ts == u[r]
  }

  ghost predicate MatchedBefore(u: seq<TimeStamp>, end: TimeStamp, rows: seq<Row>, i: nat, r: nat)
    requires i <= |rows|
  {
    exists j :: 0 <= j < i && Matches(u, end, rows, j, r)
  }

  ghost predicate Matched(u: seq<TimeStamp>, end: TimeStamp, rows: seq<Row>, r: nat) {
    MatchedBefore(u, end, rows, |rows|, r)
  }

  /** A matched output row is left behind at once. */
  lemma {:induction false} MatchedIsPassed(u: seq<TimeStamp>, end: TimeStamp, rows: seq<Row>, i: nat, r: nat)
    requires i <= |rows| && MatchedBefore(u, end, rows, i, r)
    ensures r < Cursor(u, rows, i)
  {
    var j :| 0 <= j < i && Matches(u, end, rows, j, r);
    CursorRises(u, rows, j + 1, i);
  }

  // ----- one more row -----

  /** What one more row does to whether output row r is written. */
  lemma {:induction false} WrittenStep(u: seq<TimeStamp>, end: TimeStamp, rows: seq<Row>, i: nat, r: nat)
    requires i < |rows| && Reached(u, end, rows, i + 1) && r < |u|
    ensures var k := Cursor(u, rows, i);
      WrittenBy(u, end, rows, i + 1, r) <==>
        (if r == k && !Lt(rows[i].ts, u[k]) then true else WrittenBy(u, end, rows, i, r))
  {
    SkippedSnoc(u, end, rows, i, r);
    if SkippedBefore(u, end, rows, i, r) { SkippedIsPassed(u, end, rows, i, r); }
    if r == Cursor(u, rows, i) { StepAtCursor(u, end, rows, i, r); }
  }

  lemma {:induction false} SkippedSnoc(u: seq<TimeStamp>, end: TimeStamp, rows: seq<Row>, i: nat, r: nat)
    requires i < |rows|
    ensures SkippedBefore(u, end, rows, i + 1, r) <==>
            SkippedBefore(u, end, rows, i, r) || SkipsAt(u, end, rows, i, r)
  {
    if SkipsAt(u, end, rows, i, r) { assert SkippedBefore(u, end, rows, i + 1, r); }
  }

  /** At the current output row the next row decides: a row behind it skips it unless an earlier one was seen there. */
  lemma {:induction false} StepAtCursor(u: seq<TimeStamp>, end: TimeStamp, rows: seq<Row>, i: nat, r: nat)
    requires i < |rows| && Reached(u, end, rows, i + 1) && r < |u| && r == Cursor(u, rows, i)
    ensures SkipsAt(u, end, rows, i, r) <==> Lt(rows[i].ts, u[r]) && !WrittenBy(u, end, rows, i, r)
    ensures Cursor(u, rows, i + 1) == if Gt(rows[i].ts, u[r]) then r else r + 1
  {
  }

  lemma {:induction false} ReachedSnoc(u: seq<TimeStamp>, end: TimeStamp, rows: seq<Row>, i: nat)
    requires i < |rows| && Reached(u, end, rows, i)
    ensures Reached(u, end, rows, i + 1) <==> Cursor(u, rows, i) < |u| && !Gt(rows[i].ts, end)
  {
    if Cursor(u, rows, i) < |u| && !Gt(rows[i].ts, end) { assert Reached(u, end, rows, i + 1); }
  }

  /** The finished columns, from the callback's state before row i. */
  function Finished(u: seq<TimeStamp>, end: TimeStamp, types: seq<TypeCode>, rows: seq<Row>, i: nat, g: Grid): Grid
    requires i <= |rows|
  {
    var g' := Consume(Callback(u, end, types), g, rows, i).0;
    if |g'.cols| == |types| then FillRest(g', types, |u|) else g'
  }

  // ----- the state of one output row -----

  /**
   * What has become of output row r when the callback has seen i rows: the copy
   * of the row matched to it, else blank if it has been written, else untouched.
   */
  ghost predicate RowIs(u: seq<TimeStamp>, end: TimeStamp, types: seq<TypeCode>, rows: seq<Row>, i: nat, g: Grid,
        r: nat)
    requires i <= |rows|
  {
    && (forall j :: 0 <= j < i && Matches(u, end, rows, j, r) ==> Copied(g, r, rows[j]))
    && (!MatchedBefore(u, end, rows, i, r) && WrittenBy(u, end, rows, i, r) ==> Blank(g, r, types))
    && (!WrittenBy(u, end, rows, i, r) ==> r < |g.valid| && g.valid[r] == Unwritten)
  }

  /** Before row i the callback has not stopped and stands at its cursor, and output row r is as it should be. */
  ghost predicate Tracked(u: seq<TimeStamp>, end: TimeStamp, types: seq<TypeCode>, rows: seq<Row>, i: nat, g: Grid,
        r: nat)
    requires i <= |rows|
  {
    Reached(u, end, rows, i) && g.row == Cursor(u, rows, i) && Shaped(g, types, |u|) &&
    RowIs(u, end, types, rows, i, g, r)
  }

  /** Another output row than the current one is not matched by the next row. */
  lemma {:induction false} MatchedSnoc(u: seq<TimeStamp>, end: TimeStamp, rows: seq<Row>, i: nat, r: nat)
    requires i < |rows| && !Matches(u, end, rows, i, r)
    ensures forall j :: 0 <= j < i + 1 && Matches(u, end, rows, j, r) ==> j < i
    ensures MatchedBefore(u, end, rows, i + 1, r) == MatchedBefore(u, end, rows, i, r)
  {
    if MatchedBefore(u, end, rows, i, r) {
      MatchedStays(u, end, rows, i, r);
    } else {
      assert forall j :: 0 <= j < i + 1 && Matches(u, end, rows, j, r) ==> j < i;
    }
  }

  lemma {:induction false} MatchedStays(u: seq<TimeStamp>, end: TimeStamp, rows: seq<Row>, i: nat, r: nat)
    requires i < |rows| && MatchedBefore(u, end, rows, i, r)
    ensures MatchedBefore(u, end, rows, i + 1, r)
  {
    var j :| 0 <= j < i && Matches(u, end, rows, j, r);
    assert 0 <= j < i + 1 && Matches(u, end, rows, j, r);
  }

  /** Another output row than the current one stays as it is. */
  lemma {:induction false} OtherRowStays(u: seq<TimeStamp>, end: TimeStamp, types: seq<TypeCode>, rows: seq<Row>,
        i: nat, g: Grid, r: nat, g1: Grid)
    requires i < |rows| && r < |u| && Reached(u, end, rows, i + 1) && r != Cursor(u, rows, i)
    requires RowIs(u, end, types, rows, i, g, r) && SameRow(g, g1, r)
    ensures RowIs(u, end, types, rows, i + 1, g1, r)
  {
    WrittenStep(u, end, rows, i, r);
    assert !Matches(u, end, rows, i, r);
    MatchedSnoc(u, end, rows, i, r);
    SameRowKeeps(g, g1, r, Row(MIN_TS, []), types);
    forall j | 0 <= j < i && Matches(u, end, rows, j, r) ensures Copied(g1, r, rows[j]) {
      SameRowKeeps(g, g1, r, rows[j], types);
    }
  }

  /** None of the first i rows is matched to an output row they have not left behind. */
  lemma {:induction false} NoneMatchedYet(u: seq<TimeStamp>, end: TimeStamp, rows: seq<Row>, i: nat, r: nat)
    requires i < |rows| && r == Cursor(u, rows, i)
    ensures !MatchedBefore(u, end, rows, i, r)
    ensures forall j :: 0 <= j < i + 1 && Matches(u, end, rows, j, r) ==> j == i
  {
    if MatchedBefore(u, end, rows, i, r) { MatchedIsPassed(u, end, rows, i, r); }
  }

  /** The current output row becomes the copy of the row. */
  lemma {:induction false} RowIsCopied(u: seq<TimeStamp>, end: TimeStamp, types: seq<TypeCode>, rows: seq<Row>,
        i: nat, r: nat, g1: Grid)
    requires i < |rows| && r < |u| && Reached(u, end, rows, i + 1) && r == Cursor(u, rows, i)
    requires rows[i].ts == u[r] && Copied(g1, r, rows[i])
    ensures RowIs(u, end, types, rows, i + 1, g1, r)
  {
    WrittenStep(u, end, rows, i, r);
    NoneMatchedYet(u, end, rows, i, r);
    assert Matches(u, end, rows, i, r);
  }

  /** The current output row becomes blank, or stays as it is. */
  lemma {:induction false} RowIsNotCopied(u: seq<TimeStamp>, end: TimeStamp, types: seq<TypeCode>, rows: seq<Row>,
        i: nat, g: Grid, r: nat, g1: Grid)
    requires i < |rows| && r < |u| && Reached(u, end, rows, i + 1) && r == Cursor(u, rows, i)
    requires RowIs(u, end, types, rows, i, g, r) && rows[i].ts != u[r]
    requires if Gt(rows[i].ts, u[r]) then Blank(g1, r, types) else SameRow(g, g1, r)
    ensures RowIs(u, end, types, rows, i + 1, g1, r)
  {
    WrittenStep(u, end, rows, i, r);
    NoneMatchedYet(u, end, rows, i, r);
    NotMatchedHere(u, end, rows, i, r);
    if !Gt(rows[i].ts, u[r]) { SameRowKeeps(g, g1, r, Row(MIN_TS, []), types); }
  }

  lemma {:induction false} NotMatchedHere(u: seq<TimeStamp>, end: TimeStamp, rows: seq<Row>, i: nat, r: nat)
    requires i < |rows| && r < |u| && rows[i].ts != u[r] && !MatchedBefore(u, end, rows, i, r)
    ensures forall j :: 0 <= j < i + 1 ==> !Matches(u, end, rows, j, r)
    ensures !MatchedBefore(u, end, rows, i + 1, r)
  {
  }

  /** The callback follows the cursor and writes accordingly. */
  lemma {:induction false} TrackStep(u: seq<TimeStamp>, end: TimeStamp, types: seq<TypeCode>, rows: seq<Row>, i: nat,
        g: Grid, r: nat, g1: Grid)
    requires i < |rows| && r < |u| && Wide(rows, |types|) && Tracked(u, end, types, rows, i, g, r)
    requires MergeRow(u, end, types, g, rows[i]) == (g1, false)
    ensures Tracked(u, end, types, rows, i + 1, g1, r)
  {
    ReachedSnoc(u, end, rows, i);
    if !Lt(rows[i].ts, u[g.row]) {
      WriteEffect(g, true, rows[i].cells, types, |u|);
      WriteEffect(g, false, DefaultRow(types), types, |u|);
    }
    if r != g.row {
      OtherRowStays(u, end, types, rows, i, g, r, g1);
    } else if rows[i].ts == u[r] {
      RowIsCopied(u, end, types, rows, i, r, g1);
    } else {
      RowIsNotCopied(u, end, types, rows, i, g, r, g1);
    }
  }

  /** The rows have run out, or the callback answers true. */
  predicate Halts(u: seq<TimeStamp>, end: TimeStamp, types: seq<TypeCode>, rows: seq<Row>, i: nat, g: Grid)
    requires i <= |rows|
  {
    i == |rows| || MergeRow(u, end, types, g, rows[i]).1
  }

  /** Where the callback has stopped, nothing more is skipped. */
  lemma SkippedByStop(u: seq<TimeStamp>, end: TimeStamp, rows: seq<Row>, c: nat, r: nat)
    requires c <= |rows| && (c < |rows| ==> !Reached(u, end, rows, c + 1))
    ensures PassedOver(u, end, rows, r) <==> SkippedBefore(u, end, rows, c, r)
  {
    if PassedOver(u, end, rows, r) {
      var j :| 0 <= j < |rows| && SkipsAt(u, end, rows, j, r);
      assert j < c;
    }
  }

  /** No row behind the stop is matched. */
  lemma MatchedByStop(u: seq<TimeStamp>, end: TimeStamp, rows: seq<Row>, c: nat)
    requires c <= |rows| && (c < |rows| ==> !Reached(u, end, rows, c + 1))
    ensures forall j, r: nat :: 0 <= j < |rows| && Matches(u, end, rows, j, r) ==> j < c
  {
  }

  // ----- what the merge makes of every output row -----

  /**
   * Output row r in the finished columns: the copy of the row that meets it,
   * untouched if the first row seen at it is already behind it, else blank.
   */
  ghost predicate RowEnds(u: seq<TimeStamp>, end: TimeStamp, types: seq<TypeCode>, rows: seq<Row>, g: Grid, r: nat) {
    && (forall j :: 0 <= j < |rows| && Matches(u, end, rows, j, r) ==> Copied(g, r, rows[j]))
    && (PassedOver(u, end, rows, r) ==> r < |g.valid| && g.valid[r] == Unwritten)
    && (!Matched(u, end, rows, r) && !PassedOver(u, end, rows, r) ==> Blank(g, r, types))
  }

  /** Where the callback stops the closing loop settles the rest. */
  lemma {:induction false} HaltEnds(u: seq<TimeStamp>, end: TimeStamp, types: seq<TypeCode>, rows: seq<Row>, i: nat,
        g: Grid, r: nat)
    requires i <= |rows| && r < |u| && Wide(rows, |types|) && Tracked(u, end, types, rows, i, g, r)
    requires Halts(u, end, types, rows, i, g)
    ensures RowEnds(u, end, types, rows, Finished(u, end, types, rows, i, g), r)
  {
    if i < |rows| { ReachedSnoc(u, end, rows, i); }
    StopsAt(u, end, types, rows, i, g);
    SkippedByStop(u, end, rows, i, r);
    MatchedByStop(u, end, rows, i);
    CursorInRange(u, rows, i);
    FillRestBlanks(g, types, |u|);
    if r < g.row {
      SettledRow(u, end, types, rows, i, g, r, FillRest(g, types, |u|));
    } else {
      OpenRow(u, end, types, rows, i, r, FillRest(g, types, |u|));
    }
  }

  lemma {:induction false} CursorInRange(u: seq<TimeStamp>, rows: seq<Row>, i: nat)
    requires i <= |rows|
    ensures Cursor(u, rows, i) <= |u|
  {
    if i > 0 { CursorInRange(u, rows, i - 1); }
  }

  lemma {:induction false} SettledRow(u: seq<TimeStamp>, end: TimeStamp, types: seq<TypeCode>, rows: seq<Row>, i: nat,
        g: Grid, r: nat, h: Grid)
    requires i <= |rows| && r < Cursor(u, rows, i) && RowIs(u, end, types, rows, i, g, r) && SameRow(g, h, r)
    requires PassedOver(u, end, rows, r) <==> SkippedBefore(u, end, rows, i, r)
    requires forall j :: 0 <= j < |rows| && Matches(u, end, rows, j, r) ==> j < i
    ensures RowEnds(u, end, types, rows, h, r)
  {
    forall j | 0 <= j < |rows| && Matches(u, end, rows, j, r) ensures Copied(h, r, rows[j]) {
      SameRowKeeps(g, h, r, rows[j], types);
    }
    SameRowKeeps(g, h, r, Row(MIN_TS, []), types);
  }

  lemma {:induction false} OpenRow(u: seq<TimeStamp>, end: TimeStamp, types: seq<TypeCode>, rows: seq<Row>, i: nat,
        r: nat, h: Grid)
    requires i <= |rows| && r >= Cursor(u, rows, i) && Blank(h, r, types)
    requires PassedOver(u, end, rows, r) <==> SkippedBefore(u, end, rows, i, r)
    requires forall j :: 0 <= j < |rows| && Matches(u, end, rows, j, r) ==> j < i
    ensures RowEnds(u, end, types, rows, h, r)
  {
    if SkippedBefore(u, end, rows, i, r) { SkippedIsPassed(u, end, rows, i, r); }
    if MatchedBefore(u, end, rows, i, r) { MatchedIsPassed(u, end, rows, i, r); }
  }

  lemma {:induction false} FinishedStep(u: seq<TimeStamp>, end: TimeStamp, types: seq<TypeCode>, rows: seq<Row>,
        i: nat, g: Grid)
    requires i < |rows| && !MergeRow(u, end, types, g, rows[i]).1
    ensures Finished(u, end, types, rows, i, g) ==
            Finished(u, end, types, rows, i + 1, MergeRow(u, end, types, g, rows[i]).0)
  {
  }

  lemma {:induction false} Track(u: seq<TimeStamp>, end: TimeStamp, types: seq<TypeCode>, rows: seq<Row>, i: nat,
        g: Grid, r: nat, h: Grid)
    requires i <= |rows| && r < |u| && Wide(rows, |types|) && Tracked(u, end, types, rows, i, g, r)
    requires h == Finished(u, end, types, rows, i, g)
    ensures RowEnds(u, end, types, rows, h, r)
    decreases |rows| - i
  {
    if Halts(u, end, types, rows, i, g) {
      HaltEnds(u, end, types, rows, i, g, r);
    } else {
      var g1 := MergeRow(u, end, types, g, rows[i]).0;
      FinishedStep(u, end, types, rows, i, g);
      TrackStep(u, end, types, rows, i, g, r, g1);
      Track(u, end, types, rows, i + 1, g1, r, h);
    }
  }

  /** The exact effect of merging one buffer with rows in any order, output row by output row. */
  lemma {:induction false} TraceExact(u: seq<TimeStamp>, end: TimeStamp, types: seq<TypeCode>, rows: seq<Row>, r: nat)
    requires Wide(rows, |types|) && r < |u|
    ensures RowEnds(u, end, types, rows, MergeBuffer(u, end, types, rows).0, r)
  {
    Track(u, end, types, rows, 0, Allocate(types, |u|), r, MergeBuffer(u, end, types, rows).0);
  }

  /** The finished columns have one cell for every output row, whatever the order of the rows. */
  lemma {:induction false} MergeShape(u: seq<TimeStamp>, end: TimeStamp, types: seq<TypeCode>, rows: seq<Row>)
    requires Wide(rows, |types|)
    ensures Shaped(MergeBuffer(u, end, types, rows).0, types, |u|)
  {
    var g0 := Allocate(types, |u|);
    NeverBroken(u, end, types, rows, 0, g0);
    var g := Consume(Callback(u, end, types), g0, rows, 0).0;
    if g.row <= |u| { FillRestBlanks(g, types, |u|); }
  }

  // ----- which output rows get written -----

  /**
   * Definedness, exactly, for rows in any order: an output row is left
   * unwritten precisely when the first row seen at it is already behind it.
   */
  lemma {:induction false} WrittenIff(u: seq<TimeStamp>, end: TimeStamp, types: seq<TypeCode>, rows: seq<Row>, r: nat)
    requires Wide(rows, |types|) && Complete(rows) && r < |u|
    ensures Defined(MergeBuffer(u, end, types, rows).0, r) <==> !PassedOver(u, end, rows, r)
  {
    var g := MergeBuffer(u, end, types, rows).0;
    TraceExact(u, end, types, rows, r);
    if Matched(u, end, rows, r) {
      var j :| 0 <= j < |rows| && Matches(u, end, rows, j, r);
      CopiedIsDefined(g, r, rows[j]);
    }
  }

  lemma CopiedIsDefined(g: Grid, r: nat, row: Row)
    requires Copied(g, r, row) && forall c :: 0 <= c < |row.cells| ==> row.cells[c] != Unwritten
    ensures Defined(g, r)
  {
  }

  /**
   * The header admits falling pulse ids within one time: ids 1, 3, 2, 1 repeat
   * nothing at the end of the common run, yet leave the row of id 3 unwritten.
   */
  lemma FallingPulseIdsLeaveRow()
    ensures var u, end := [TimeStamp(1, 0, 1), TimeStamp(1, 0, 2), TimeStamp(1, 0, 3)], TimeStamp(2, 0, 0);
      var rows := [Row(u[0], []), Row(u[2], []), Row(u[1], []), Row(u[0], [])];
      && TimesNeverDecrease(rows) && Covers(u, end, rows) && Complete(rows) && !Repeats(u, rows)
      && PassedOver(u, end, rows, 2) && !Defined(MergeBuffer(u, end, [], rows).0, 2)
  {
    var u, end := [TimeStamp(1, 0, 1), TimeStamp(1, 0, 2), TimeStamp(1, 0, 3)], TimeStamp(2, 0, 0);
    var rows := [Row(u[0], []), Row(u[2], []), Row(u[1], []), Row(u[0], [])];
    FallingIdsPassRow(u, end, rows);
    assert CommonRun(u, rows, 1) == 1;
    WrittenIff(u, end, [], rows, 2);
  }

  lemma {:induction false} FallingIdsPassRow(u: seq<TimeStamp>, end: TimeStamp, rows: seq<Row>)
    requires u == [TimeStamp(1, 0, 1), TimeStamp(1, 0, 2), TimeStamp(1, 0, 3)] && end == TimeStamp(2, 0, 0)
    requires |rows| == 4 && rows[0].ts == u[0] && rows[1].ts == u[2] && rows[2].ts == u[1] && rows[3].ts == u[0]
    ensures PassedOver(u, end, rows, 2)
  {
    assert Cursor(u, rows, 1) == 1 && Cursor(u, rows, 2) == 1 && Cursor(u, rows, 3) == 2;
    assert SkipsAt(u, end, rows, 3, 2);
  }

  // ----- which rows are used up, and which are shown -----

  /** The callback sees c rows without stopping, and stops there. */
  ghost predicate StopsBefore(u: seq<TimeStamp>, end: TimeStamp, rows: seq<Row>, c: nat) {
    c <= |rows| && Reached(u, end, rows, c) && (c < |rows| ==> !Reached(u, end, rows, c + 1))
  }

  /** A row the callback does not stop at moves it along with its cursor. */
  lemma {:induction false} CursorFollows(u: seq<TimeStamp>, end: TimeStamp, types: seq<TypeCode>, rows: seq<Row>,
        i: nat, g: Grid, g1: Grid)
    requires i < |rows| && Wide(rows, |types|) && Shaped(g, types, |u|) && g.row == Cursor(u, rows, i)
    requires MergeRow(u, end, types, g, rows[i]) == (g1, false)
    ensures Shaped(g1, types, |u|) && g1.row == Cursor(u, rows, i + 1)
    ensures Cursor(u, rows, i) < |u| && !Gt(rows[i].ts, end)
  {
    WriteEffect(g, true, rows[i].cells, types, |u|);
    WriteEffect(g, false, DefaultRow(types), types, |u|);
  }

  lemma {:induction false} ConsumeStops(u: seq<TimeStamp>, end: TimeStamp, types: seq<TypeCode>, rows: seq<Row>,
        i: nat, g: Grid, c: nat)
    requires i <= |rows| && Wide(rows, |types|) && Shaped(g, types, |u|)
    requires Reached(u, end, rows, i) && g.row == Cursor(u, rows, i)
    requires c == Consume(Callback(u, end, types), g, rows, i).1
    ensures StopsBefore(u, end, rows, c)
    decreases |rows| - i
  {
    if i < |rows| {
      ReachedSnoc(u, end, rows, i);
      if !MergeRow(u, end, types, g, rows[i]).1 {
        var g1 := MergeRow(u, end, types, g, rows[i]).0;
        CursorFollows(u, end, types, rows, i, g, g1);
        ConsumeStops(u, end, types, rows, i + 1, g1, c);
      } else {
        HaltsHere(u, end, types, rows, i, g);
      }
    }
  }

  lemma {:induction false} HaltsHere(u: seq<TimeStamp>, end: TimeStamp, types: seq<TypeCode>, rows: seq<Row>,
        i: nat, g: Grid)
    requires i < |rows| && Wide(rows, |types|) && Shaped(g, types, |u|) && MergeRow(u, end, types, g, rows[i]).1
    ensures (g.row >= |u| || Gt(rows[i].ts, end)) && Consume(Callback(u, end, types), g, rows, i).1 == i
  {
  }

  /** How many rows a merge consumes, in any order. */
  lemma {:induction false} MergeStops(u: seq<TimeStamp>, end: TimeStamp, types: seq<TypeCode>, rows: seq<Row>)
    requires Wide(rows, |types|)
    ensures StopsBefore(u, end, rows, MergeBuffer(u, end, types, rows).1)
  {
    ConsumeStops(u, end, types, rows, 0, Allocate(types, |u|), MergeBuffer(u, end, types, rows).1);
  }

  /** Every row before `end` is seen while output rows are left. */
  ghost predicate SeenInTime(u: seq<TimeStamp>, end: TimeStamp, rows: seq<Row>) {
    forall j :: 0 <= j < |rows| && Lt(rows[j].ts, end) ==> Cursor(u, rows, j) < |u|
  }

  /** What a merge keeps of ascending rows is at or after `end` exactly when output rows last for those before it. */
  lemma {:induction false} KeptFromEndIff(u: seq<TimeStamp>, end: TimeStamp, rows: seq<Row>, c: nat)
    requires AscendingRows(rows) && StopsBefore(u, end, rows, c)
    ensures AllFrom(rows[c..], end) <==> SeenInTime(u, end, rows)
  {
    if SeenInTime(u, end, rows) {
      if c < |rows| { ReachedSnoc(u, end, rows, c); }
      forall j | c <= j < |rows| ensures Ge(rows[j].ts, end) {
        assert j > c ==> Lt(rows[c].ts, rows[j].ts);
      }
    } else {
      var j :| 0 <= j < |rows| && Lt(rows[j].ts, end) && Cursor(u, rows, j) >= |u|;
      assert rows[c..][j - c] == rows[j];
    }
  }

  /** The rows among the first i that are copied to an output row. */
  function MatchedRows(u: seq<TimeStamp>, rows: seq<Row>, i: nat): (r: seq<Row>)
    requires i <= |rows|
    ensures |r| <= i
  {
    if i == 0 then []
    else
      var r := Cursor(u, rows, i - 1);
      MatchedRows(u, rows, i - 1) + if r < |u| && rows[i - 1].ts == u[r] then [rows[i - 1]] else []
  }

  /** As many rows are copied as are consumed exactly when the consumed rows are the common run. */
  lemma {:induction false} AllMatchedIff(u: seq<TimeStamp>, rows: seq<Row>, i: nat)
    requires i <= |rows|
    ensures |MatchedRows(u, rows, i)| == i <==> i <= |u| && forall j :: 0 <= j < i ==> rows[j].ts == u[j]
    ensures |MatchedRows(u, rows, i)| == i ==> Cursor(u, rows, i) == i && MatchedRows(u, rows, i) == rows[..i]
  {
    if i > 0 {
      AllMatchedIff(u, rows, i - 1);
      assert rows[..i] == rows[..i - 1] + [rows[i - 1]];
    }
  }

  lemma {:induction false} CursorAlongRun(u: seq<TimeStamp>, rows: seq<Row>, k: nat, i: nat)
    requires i <= k <= |rows| && k <= |u| && (forall j :: 0 <= j < k ==> rows[j].ts == u[j])
    ensures Cursor(u, rows, i) == i
  {
    if i > 0 { CursorAlongRun(u, rows, k, i - 1); }
  }

  /** A common run is seen whole. */
  lemma {:induction false} RunIsReached(u: seq<TimeStamp>, end: TimeStamp, rows: seq<Row>, k: nat)
    requires k <= |rows| && k <= |u| && (forall j :: 0 <= j < k ==> rows[j].ts == u[j])
    requires forall j :: 0 <= j < |u| ==> Lt(u[j], end)
    ensures Reached(u, end, rows, k) && Cursor(u, rows, k) == k
  {
    CursorAlongRun(u, rows, k, k);
    forall i | 0 <= i < k ensures Cursor(u, rows, i) == i && !Gt(rows[i].ts, end) {
      CursorAlongRun(u, rows, k, i);
    }
  }

  lemma ReachedEarlier(u: seq<TimeStamp>, end: TimeStamp, rows: seq<Row>, i: nat, j: nat)
    requires i <= j <= |rows| && Reached(u, end, rows, j)
    ensures Reached(u, end, rows, i)
  {
  }

  /** Everything consumed is shown exactly when the union is used up, or no row up to `end` follows the common run. */
  lemma {:induction false} NothingPassedIff(u: seq<TimeStamp>, end: TimeStamp, rows: seq<Row>, k: nat, c: nat)
    requires k == CommonRun(u, rows, 0) && StopsBefore(u, end, rows, c)
    requires forall j :: 0 <= j < |u| ==> Lt(u[j], end)
    ensures k <= c && (|MatchedRows(u, rows, c)| == c <==> c == k)
    ensures c == k <==> k == |u| || k == |rows| || Gt(rows[k].ts, end)
  {
    RunIsReached(u, end, rows, k);
    if c < k { ReachedEarlier(u, end, rows, c + 1, k); }
    AllMatchedIff(u, rows, c);
    if c > k { ReachedEarlier(u, end, rows, k + 1, c); }
    if k < |rows| { ReachedSnoc(u, end, rows, k); }
  }

  // ----- rows before the window -----

  /** The union of a window that some row lies in: ascending, inside the window, with all row times inside it. */
  ghost predicate FillsWindow(u: seq<TimeStamp>, start: TimeStamp, end: TimeStamp, rows: seq<Row>) {
    && u != [] && Ascending(u) && (forall i :: 0 <= i < |u| ==> InWindow(u[i], start, end))
    && (forall j :: 0 <= j < |rows| && InWindow(rows[j].ts, start, end) ==> rows[j].ts in u)
  }

  ghost predicate FlagsWritten(g: Grid, n: nat) {
    forall r :: 0 <= r < n ==> r < |g.valid| && g.valid[r] != Unwritten
  }

  ghost predicate AllDefined(g: Grid, n: nat) { forall r :: 0 <= r < n ==> Defined(g, r) }

  /** A row before the window is behind the first output row and leaves it unwritten. */
  lemma {:induction false} EarlyRowPasses(u: seq<TimeStamp>, start: TimeStamp, end: TimeStamp, rows: seq<Row>)
    requires AscendingRows(rows) && FillsWindow(u, start, end, rows) && !AllFrom(rows, start)
    ensures PassedOver(u, end, rows, 0)
  {
    assert Lt(rows[0].ts, start);
    assert InWindow(u[0], start, end);
    assert Cursor(u, rows, 0) == 0;
    assert SkipsAt(u, end, rows, 0, 0);
  }

  /**
   * For ascending rows, every flag of a buffer is written, and every cell if
   * its rows are complete, exactly when no row lies before the window.
   */
  lemma {:induction false} WrittenIffNoneEarly(u: seq<TimeStamp>, start: TimeStamp, end: TimeStamp,
        types: seq<TypeCode>, rows: seq<Row>)
    requires Wide(rows, |types|) && AscendingRows(rows) && FillsWindow(u, start, end, rows)
    ensures FlagsWritten(MergeBuffer(u, end, types, rows).0, |u|) <==> AllFrom(rows, start)
    ensures Complete(rows) ==> (AllDefined(MergeBuffer(u, end, types, rows).0, |u|) <==> AllFrom(rows, start))
  {
    var g := MergeBuffer(u, end, types, rows).0;
    if AllFrom(rows, start) {
      MergeExact(u, end, types, rows);
      var k := CommonRun(u, rows, 0);
      forall r | 0 <= r < |u| ensures r < |g.valid| && g.valid[r] != Unwritten && (Complete(rows) ==> Defined(g, r)) {
        if r < k { assert Copied(g, r, rows[r]); } else { assert Blank(g, r, types); }
      }
    } else {
      EarlyRowPasses(u, start, end, rows);
      TraceExact(u, end, types, rows, 0);
      assert g.valid[0] == Unwritten && !Defined(g, 0);
    }
  }
}
