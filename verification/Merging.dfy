/**
 * The row callback of TimeAlignedTable::extract and what it makes of one
 * buffer: the merge as written, and its exact relation to an outer join.
 */
module Merging {
  import opened TimeStamps
  import opened TimeTables
  import opened RowQueues

  // ----- the callback -----

  /**
   * The variables the callback captures by reference: the output row, the
   * valid column and the data columns of this buffer. `broken` records the
   * std::logic_error of a copy between rows of different widths.
   */
  datatype Grid = Grid(row: nat, valid: seq<Cell>, cols: seq<seq<Cell>>, broken: bool)

  function Put<T>(s: seq<T>, i: nat, x: T): seq<T> {
    if i < |s| then s[i := x] else s
  }

  function CopyRow(cols: seq<seq<Cell>>, r: nat, cells: seq<Cell>): seq<seq<Cell>>
    requires |cols| == |cells|
  {
    seq(|cols|, c requires 0 <= c < |cols| => Put(cols[c], r, cells[c]))
  }

  /** Stores the valid flag and one cell per column at the current output row. */
  function Write(g: Grid, flag: bool, cells: seq<Cell>): Grid
    requires |g.cols| == |cells|
  {
    g.(valid := Put(g.valid, g.row, Bool(flag)), cols := CopyRow(g.cols, g.row, cells))
  }

  function DefaultRow(types: seq<TypeCode>): seq<Cell> {
    seq(|types|, c requires 0 <= c < |types| => Default(types[c]))
  }

  function MergeRow(u: seq<TimeStamp>, end: TimeStamp, types: seq<TypeCode>, g: Grid, row: Row): (Grid, bool) {
    if g.row >= |u| || Gt(row.ts, end) then (g, true)
    else if |g.cols| != |row.cells| || |g.cols| != |types| then (g.(broken := true), true)
    else if Eq(row.ts, u[g.row]) then
      (Write(g, true, row.cells).(row := g.row + 1), false)
    else if Gt(row.ts, u[g.row]) then
      // the buffer is ahead: this output row is empty, and the buffer row is used up
      (Write(g, false, DefaultRow(types)), false)
    else
      // the buffer is behind
      (g.(row := g.row + 1), false)
  }

  function Callback(u: seq<TimeStamp>, end: TimeStamp, types: seq<TypeCode>): (Grid, Row) -> (Grid, bool) {
    (g, row) => MergeRow(u, end, types, g, row)
  }

  /** Freshly allocated columns of n rows. */
  function Allocate(types: seq<TypeCode>, n: nat): Grid {
    Grid(0, seq(n, _ => Unwritten), seq(|types|, _ => seq(n, _ => Unwritten)), false)
  }

  /** Marks the rows from g.row on as invalid and empty. */
  function FillRest(g: Grid, types: seq<TypeCode>, n: nat): Grid
    requires |g.cols| == |types|
    decreases n - g.row
  {
    if g.row >= n then g
    else FillRest(Write(g, false, DefaultRow(types)).(row := g.row + 1), types, n)
  }

  // ----- what the columns hold -----

  ghost predicate Shaped(g: Grid, types: seq<TypeCode>, n: nat) {
    |g.valid| == n && |g.cols| == |types| && forall c :: 0 <= c < |types| ==> |g.cols[c]| == n
  }

  /** Output row r is a valid copy of the given source row. */
  ghost predicate Copied(g: Grid, r: nat, source: Row) {
    && r < |g.valid| && g.valid[r] == Bool(true)
    && |g.cols| == |source.cells|
    && forall c :: 0 <= c < |g.cols| ==> r < |g.cols[c]| && g.cols[c][r] == source.cells[c]
  }

  /** Output row r is invalid and holds the default of every column. */
  ghost predicate Blank(g: Grid, r: nat, types: seq<TypeCode>) {
    && r < |g.valid| && g.valid[r] == Bool(false)
    && |g.cols| == |types|
    && forall c :: 0 <= c < |g.cols| ==> r < |g.cols[c]| && g.cols[c][r] == Default(types[c])
  }

  /** The first k output rows are the first k source rows, the others are blank. */
  ghost predicate PrefixOnly(g: Grid, u: seq<TimeStamp>, types: seq<TypeCode>, rows: seq<Row>, k: nat) {
    && Shaped(g, types, |u|) && k <= |u| && k <= |rows|
    && (forall r :: 0 <= r < k ==> Copied(g, r, rows[r]))
    && (forall r :: k <= r < |u| ==> Blank(g, r, types))
  }

  /** The full outer join of the timestamps u with the rows: independent of any merge order. */
  ghost predicate OuterJoin(g: Grid, u: seq<TimeStamp>, types: seq<TypeCode>, rows: seq<Row>) {
    && Shaped(g, types, |u|)
    && (forall r, j :: 0 <= r < |u| && 0 <= j < |rows| && rows[j].ts == u[r] ==> Copied(g, r, rows[j]))
    && (forall r :: 0 <= r < |u| && (forall j :: 0 <= j < |rows| ==> rows[j].ts != u[r]) ==> Blank(g, r, types))
  }

  /** Output row r is the same in both. */
  ghost predicate SameRow(g: Grid, h: Grid, r: nat) {
    && r < |g.valid| == |h.valid| && |g.cols| == |h.cols| && g.valid[r] == h.valid[r]
    && forall c :: 0 <= c < |g.cols| ==> r < |g.cols[c]| == |h.cols[c]| && g.cols[c][r] == h.cols[c][r]
  }

  lemma SameRowKeeps(g: Grid, h: Grid, r: nat, source: Row, types: seq<TypeCode>)
    requires SameRow(g, h, r)
    ensures Copied(g, r, source) ==> Copied(h, r, source)
    ensures Blank(g, r, types) ==> Blank(h, r, types)
  {
  }

  /** A write changes the current row only. */
  lemma WriteEffect(g: Grid, flag: bool, cells: seq<Cell>, types: seq<TypeCode>, n: nat)
    requires Shaped(g, types, n) && g.row < n && |cells| == |types|
    ensures var h := Write(g, flag, cells);
      && Shaped(h, types, n) && h.row == g.row && h.broken == g.broken
      && (forall r :: 0 <= r < n && r != g.row ==> SameRow(g, h, r))
      && (flag ==> forall source: Row :: source.cells == cells ==> Copied(h, g.row, source))
      && (!flag && cells == DefaultRow(types) ==> Blank(h, g.row, types))
  {
  }

  /** The length of the longest common prefix of u[i..] and the timestamps of rows[i..], plus i. */
  function CommonRun(u: seq<TimeStamp>, rows: seq<Row>, i: nat): (k: nat)
    requires i <= |u| && i <= |rows|
    ensures i <= k <= |u| && k <= |rows|
    ensures forall j :: i <= j < k ==> rows[j].ts == u[j]
    ensures k < |u| && k < |rows| ==> rows[k].ts != u[k]
    decreases |u| - i
  {
    if i < |u| && i < |rows| && Eq(rows[i].ts, u[i]) then CommonRun(u, rows, i + 1) else i
  }

  // ----- hypotheses -----

  /** u is a set of timestamps below end that contains every row time below end. */
  ghost predicate Covers(u: seq<TimeStamp>, end: TimeStamp, rows: seq<Row>) {
    && Ascending(u)
    && (forall i :: 0 <= i < |u| ==> Lt(u[i], end))
    && (forall j :: 0 <= j < |rows| && Lt(rows[j].ts, end) ==> rows[j].ts in u)
  }

  /** Times with their pulse ids never decrease. */
  ghost predicate SortedRows(rows: seq<Row>) {
    forall i, j :: 0 <= i < j < |rows| ==> Le(rows[i].ts, rows[j].ts)
  }

  /** The row that ends the common run repeats the time of the row before it, and output rows are left. */
  ghost predicate Repeats(u: seq<TimeStamp>, rows: seq<Row>) {
    var k := CommonRun(u, rows, 0);
    0 < k < |u| && k < |rows| && rows[k].ts == rows[k - 1].ts
  }

  // ----- the two phases of the merge -----

  /** Whatever the order of the rows, the widths always fit, so no copy throws. */
  lemma {:induction false} NeverBroken(u: seq<TimeStamp>, end: TimeStamp, types: seq<TypeCode>, rows: seq<Row>,
        i: nat, g: Grid)
    requires i <= |rows| && !g.broken && Shaped(g, types, |u|) && Wide(rows, |types|)
    ensures var g' := Consume(Callback(u, end, types), g, rows, i).0;
            !g'.broken && Shaped(g', types, |u|)
    decreases |rows| - i
  {
    if i < |rows| && !MergeRow(u, end, types, g, rows[i]).1 {
      NeverBroken(u, end, types, rows, i + 1, MergeRow(u, end, types, g, rows[i]).0);
    }
  }

  /** While the buffer is ahead of output row k, its rows up to `end` are used up and nothing else happens. */
  lemma {:induction false} AheadPhase(u: seq<TimeStamp>, end: TimeStamp, types: seq<TypeCode>, rows: seq<Row>,
        i: nat, g: Grid)
    requires i <= |rows| && g.row < |u| && Shaped(g, types, |u|) && Wide(rows, |types|)
    requires forall j :: i <= j < |rows| ==> Lt(u[g.row], rows[j].ts)
    ensures var (g', c) := Consume(Callback(u, end, types), g, rows, i);
      && Shaped(g', types, |u|) && g'.row == g.row && g'.broken == g.broken
      && (forall r :: 0 <= r < g.row ==> SameRow(g, g', r))
      && (forall j :: i <= j < c ==> Le(rows[j].ts, end))
      && (c < |rows| ==> Gt(rows[c].ts, end))
    decreases |rows| - i
  {
    if i < |rows| && !Gt(rows[i].ts, end) {
      WriteEffect(g, false, DefaultRow(types), types, |u|);
      var h := Write(g, false, DefaultRow(types));
      AheadPhase(u, end, types, rows, i + 1, h);
      var g' := Consume(Callback(u, end, types), g, rows, i).0;
      forall r | 0 <= r < g.row ensures SameRow(g, g', r) {
        assert SameRow(g, h, r) && SameRow(h, g', r);
      }
    }
  }

  /**
   * k rows copied, and consumption stopped at c: behind the union if that is
   * exhausted, else behind the last row up to `end`.
   */
  ghost predicate Merged(u: seq<TimeStamp>, end: TimeStamp, types: seq<TypeCode>, rows: seq<Row>, k: nat, g: Grid,
        c: nat) {
    && Shaped(g, types, |u|) && g.row == k && !g.broken
    && k <= |u| && k <= c <= |rows|
    && (forall j :: 0 <= j < k ==> Copied(g, j, rows[j]))
    && (forall j :: k <= j < c ==> Le(rows[j].ts, end))
    && (if k == |u| then c == k else c < |rows| ==> Gt(rows[c].ts, end))
  }

  /** As long as the timestamps agree, rows are copied; at the first difference the buffer is ahead, never behind. */
  lemma {:induction false} MatchPhase(u: seq<TimeStamp>, end: TimeStamp, types: seq<TypeCode>, rows: seq<Row>,
        i: nat, g: Grid)
    requires i <= |rows| && i <= |u| && g.row == i && !g.broken && Shaped(g, types, |u|)
    requires Wide(rows, |types|) && Covers(u, end, rows) && SortedRows(rows)
    requires !Repeats(u, rows) && CommonRun(u, rows, i) == CommonRun(u, rows, 0)
    requires forall j :: 0 <= j < i ==> rows[j].ts == u[j] && Copied(g, j, rows[j])
    ensures var (g', c) := Consume(Callback(u, end, types), g, rows, i);
            Merged(u, end, types, rows, CommonRun(u, rows, i), g', c)
    decreases |rows| - i
  {
    if i == |rows| || i == |u| || Gt(rows[i].ts, end) {
      assert Consume(Callback(u, end, types), g, rows, i) == (g, i) by { StopsAt(u, end, types, rows, i, g); }
    } else if rows[i].ts == u[i] {
      MatchStep(u, types, rows, i, g);
      var g1 := Write(g, true, rows[i].cells).(row := i + 1);
      MatchPhase(u, end, types, rows, i + 1, g1);
      assert Consume(Callback(u, end, types), g, rows, i) == Consume(Callback(u, end, types), g1, rows, i + 1);
    } else {
      FirstDifferenceIsAhead(u, end, rows, i);
      AheadPhase(u, end, types, rows, i, g);
      var (g', c) := Consume(Callback(u, end, types), g, rows, i);
      forall j | 0 <= j < i ensures Copied(g', j, rows[j]) {
        SameRowKeeps(g, g', j, rows[j], types);
      }
      assert Merged(u, end, types, rows, i, g', c);
    }
  }

  lemma {:induction false} StopsAt(u: seq<TimeStamp>, end: TimeStamp, types: seq<TypeCode>, rows: seq<Row>, i: nat,
        g: Grid)
    requires i <= |rows| && (i == |rows| || g.row >= |u| || Gt(rows[i].ts, end))
    ensures Consume(Callback(u, end, types), g, rows, i) == (g, i)
  {
  }

  lemma MatchStep(u: seq<TimeStamp>, types: seq<TypeCode>, rows: seq<Row>, i: nat, g: Grid)
    requires i < |rows| && i < |u| && g.row == i && Shaped(g, types, |u|) && Wide(rows, |types|)
    requires forall j :: 0 <= j < i ==> Copied(g, j, rows[j])
    ensures var g1 := Write(g, true, rows[i].cells).(row := i + 1);
            Shaped(g1, types, |u|) && forall j :: 0 <= j <= i ==> Copied(g1, j, rows[j])
  {
    WriteEffect(g, true, rows[i].cells, types, |u|);
    var g1 := Write(g, true, rows[i].cells).(row := i + 1);
    forall j | 0 <= j < i ensures Copied(g1, j, rows[j]) {
      assert SameRow(g, Write(g, true, rows[i].cells), j);
      SameRowKeeps(g, g1, j, rows[j], types);
    }
  }

  lemma FirstDifferenceIsAhead(u: seq<TimeStamp>, end: TimeStamp, rows: seq<Row>, i: nat)
    requires i < |rows| && i < |u| && rows[i].ts != u[i] && Le(rows[i].ts, end)
    requires Covers(u, end, rows) && SortedRows(rows)
    requires forall j :: 0 <= j < i ==> rows[j].ts == u[j]
    requires i > 0 ==> rows[i].ts != rows[i - 1].ts
    ensures forall j :: i <= j < |rows| ==> Lt(u[i], rows[j].ts)
  {
    if Lt(rows[i].ts, end) {
      var m :| 0 <= m < |u| && u[m] == rows[i].ts;
      assert i > 0 ==> Lt(u[i - 1], u[m]);
      assert m >= i;
    }
    assert Lt(u[i], rows[i].ts);
  }

  /** FillRest blanks the remaining rows and touches nothing before them. */
  lemma {:induction false} FillRestBlanks(g: Grid, types: seq<TypeCode>, n: nat)
    requires Shaped(g, types, n) && g.row <= n
    ensures var g' := FillRest(g, types, n);
      && Shaped(g', types, n) && g'.broken == g.broken
      && (forall r :: g.row <= r < n ==> Blank(g', r, types))
      && (forall r :: 0 <= r < g.row ==> SameRow(g, g', r))
    decreases n - g.row
  {
    if g.row < n {
      WriteEffect(g, false, DefaultRow(types), types, n);
      var h := Write(g, false, DefaultRow(types));
      var g1 := h.(row := g.row + 1);
      FillRestBlanks(g1, types, n);
      var g' := FillRest(g, types, n);
      assert SameRow(g1, g', g.row);
      SameRowKeeps(h, g', g.row, Row(MIN_TS, []), types);
      forall r | 0 <= r < g.row ensures SameRow(g, g', r) {
        assert SameRow(g, h, r) && SameRow(g1, g', r);
      }
    }
  }

  // ----- the merge of one buffer -----

  /** The finished columns of one buffer, and how many of its rows were consumed. */
  function MergeBuffer(u: seq<TimeStamp>, end: TimeStamp, types: seq<TypeCode>, rows: seq<Row>): (Grid, nat) {
    var (g, c) := Consume(Callback(u, end, types), Allocate(types, |u|), rows, 0);
    (if |g.cols| == |types| then FillRest(g, types, |u|) else g, c)
  }

  /**
   * The exact effect of merging one buffer. Output row r is valid exactly when
   * r lies in the longest common prefix of the union and the buffer's own
   * timestamps; every cell is written; no exception is thrown. The rows
   * consumed are that prefix when it is the whole union, and otherwise
   * everything up to and including `end`.
   */
  lemma {:induction false} MergeSorted(u: seq<TimeStamp>, end: TimeStamp, types: seq<TypeCode>, rows: seq<Row>)
    requires Wide(rows, |types|) && Covers(u, end, rows) && SortedRows(rows) && !Repeats(u, rows)
    ensures var (g, c) := MergeBuffer(u, end, types, rows);
      var k := CommonRun(u, rows, 0);
      && PrefixOnly(g, u, types, rows, k) && !g.broken
      && k <= c <= |rows|
      && (forall j :: k <= j < c ==> Le(rows[j].ts, end))
      && (if k == |u| then c == k else c < |rows| ==> Gt(rows[c].ts, end))
  {
    var g0 := Allocate(types, |u|);
    MatchPhase(u, end, types, rows, 0, g0);
    var (g1, c) := Consume(Callback(u, end, types), g0, rows, 0);
    FillRestBlanks(g1, types, |u|);
    var g := FillRest(g1, types, |u|);
    forall r | 0 <= r < g1.row ensures Copied(g, r, rows[r]) {
      assert SameRow(g1, g, r);
      SameRowKeeps(g1, g, r, rows[r], types);
    }
  }

  /** The same for strictly ascending rows, where nothing can repeat. */
  lemma {:induction false} MergeExact(u: seq<TimeStamp>, end: TimeStamp, types: seq<TypeCode>, rows: seq<Row>)
    requires Wide(rows, |types|) && Covers(u, end, rows) && AscendingRows(rows)
    ensures var (g, c) := MergeBuffer(u, end, types, rows);
      var k := CommonRun(u, rows, 0);
      && PrefixOnly(g, u, types, rows, k) && !g.broken
      && k <= c <= |rows|
      && (forall j :: k <= j < c ==> Le(rows[j].ts, end))
      && (if k == |u| then c == k else c < |rows| ==> Gt(rows[c].ts, end))
  {
    MergeSorted(u, end, types, rows);
  }

  // ----- times that do not decrease are not enough -----

  /** Every cell of output row r has been stored to. */
  ghost predicate Defined(g: Grid, r: nat) {
    && r < |g.valid| && g.valid[r] != Unwritten
    && forall c :: 0 <= c < |g.cols| ==> r < |g.cols[c]| && g.cols[c][r] != Unwritten
  }

  ghost predicate Complete(rows: seq<Row>) {
    forall j, c :: 0 <= j < |rows| && 0 <= c < |rows[j].cells| ==> rows[j].cells[c] != Unwritten
  }

  /** Output rows before the current one are final. */
  lemma {:induction false} PassedRowsAreFinal(u: seq<TimeStamp>, end: TimeStamp, types: seq<TypeCode>,
        rows: seq<Row>, i: nat, g: Grid, r: nat)
    requires i <= |rows| && Shaped(g, types, |u|) && Wide(rows, |types|) && r < g.row && r < |u|
    ensures var g' := Consume(Callback(u, end, types), g, rows, i).0;
            Shaped(g', types, |u|) && g.row <= g'.row && SameRow(g, g', r)
    decreases |rows| - i
  {
    if i < |rows| {
      var (g1, done) := MergeRow(u, end, types, g, rows[i]);
      if !done {
        if g.row < |u| {
          WriteEffect(g, true, rows[i].cells, types, |u|);
          WriteEffect(g, false, DefaultRow(types), types, |u|);
        }
        assert SameRow(g, g1, r);
        PassedRowsAreFinal(u, end, types, rows, i + 1, g1, r);
      }
    }
  }

  /** Where the common run ends in a repetition, the output row after it is skipped unwritten. */
  lemma {:induction false} RepeatSkipsRow(u: seq<TimeStamp>, end: TimeStamp, types: seq<TypeCode>, rows: seq<Row>,
        i: nat, g: Grid)
    requires Wide(rows, |types|) && Covers(u, end, rows) && SortedRows(rows) && Repeats(u, rows)
    requires var k := CommonRun(u, rows, 0);
      && i <= k && CommonRun(u, rows, i) == k && g.row == i && Shaped(g, types, |u|) && g.valid[k] == Unwritten
    ensures var g' := Consume(Callback(u, end, types), g, rows, i).0; var k := CommonRun(u, rows, 0);
            Shaped(g', types, |u|) && g'.row > k && g'.valid[k] == Unwritten
    decreases |rows| - i
  {
    var k := CommonRun(u, rows, 0);
    if i < k {
      assert Lt(u[i], end);
      var g1 := Write(g, true, rows[i].cells).(row := i + 1);
      WritesElsewhere(g, true, rows[i].cells, types, |u|, k, g1);
      RepeatSkipsRow(u, end, types, rows, i + 1, g1);
    } else {
      RepeatIsBehind(u, end, types, rows, k, g);
      PassedRowsAreFinal(u, end, types, rows, k + 1, g.(row := k + 1), k);
    }
  }

  lemma WritesElsewhere(g: Grid, flag: bool, cells: seq<Cell>, types: seq<TypeCode>, n: nat, k: nat, g1: Grid)
    requires Shaped(g, types, n) && g.row < k < n && |cells| == |types|
    requires g1 == Write(g, flag, cells).(row := g.row + 1)
    ensures Shaped(g1, types, n) && g1.valid[k] == g.valid[k]
  {
  }

  /** At the repetition the buffer is behind the output row. */
  lemma {:induction false} RepeatIsBehind(u: seq<TimeStamp>, end: TimeStamp, types: seq<TypeCode>, rows: seq<Row>,
        k: nat, g: Grid)
    requires Wide(rows, |types|) && Covers(u, end, rows) && Repeats(u, rows) && k == CommonRun(u, rows, 0)
    requires g.row == k && Shaped(g, types, |u|)
    ensures MergeRow(u, end, types, g, rows[k]) == (g.(row := k + 1), false)
  {
    assert rows[k].ts == u[k - 1] && Lt(u[k - 1], u[k]) && Lt(u[k], end);
  }

  /**
   * Definedness, exactly: for rows in non-decreasing order every published cell
   * has been written precisely when the row that ends the common run does not
   * repeat the time of the one before it.
   */
  lemma DefinedIffNoRepeat(u: seq<TimeStamp>, end: TimeStamp, types: seq<TypeCode>, rows: seq<Row>)
    requires Wide(rows, |types|) && Covers(u, end, rows) && SortedRows(rows) && Complete(rows)
    ensures (forall r :: 0 <= r < |u| ==> Defined(MergeBuffer(u, end, types, rows).0, r)) <==> !Repeats(u, rows)
  {
    var g := MergeBuffer(u, end, types, rows).0;
    if Repeats(u, rows) {
      UndefinedAfterRepeat(u, end, types, rows);
    } else {
      MergeSorted(u, end, types, rows);
      var k := CommonRun(u, rows, 0);
      forall r | 0 <= r < |u| ensures Defined(g, r) {
        if r < k { assert Copied(g, r, rows[r]); } else { assert Blank(g, r, types); }
      }
    }
  }

  lemma {:induction false} UndefinedAfterRepeat(u: seq<TimeStamp>, end: TimeStamp, types: seq<TypeCode>, rows: seq<Row>)
    requires Wide(rows, |types|) && Covers(u, end, rows) && SortedRows(rows) && Repeats(u, rows)
    ensures !Defined(MergeBuffer(u, end, types, rows).0, CommonRun(u, rows, 0))
  {
    var k, g0 := CommonRun(u, rows, 0), Allocate(types, |u|);
    RepeatSkipsRow(u, end, types, rows, 0, g0);
    var g1 := Consume(Callback(u, end, types), g0, rows, 0).0;
    if g1.row <= |u| {
      FillRestBlanks(g1, types, |u|);
      assert SameRow(g1, MergeBuffer(u, end, types, rows).0, k);
    }
  }

  /** What the header of TableBuffer asks of its input: times, without pulse ids, never decrease. */
  ghost predicate TimesNeverDecrease(rows: seq<Row>) {
    forall i, j :: 0 <= i < j < |rows| ==>
      rows[i].ts.sec < rows[j].ts.sec || (rows[i].ts.sec == rows[j].ts.sec && rows[i].ts.nsec <= rows[j].ts.nsec)
  }

  /**
   * The header's promise of non-decreasing times does not exclude the
   * repetition: 1, 1, 2 leaves the row of time 2 unwritten.
   */
  lemma NonDecreasingIsNotEnough()
    ensures var t1, t2, end := TimeStamp(1, 0, 7), TimeStamp(2, 0, 8), TimeStamp(3, 0, 0);
      var rows := [Row(t1, []), Row(t1, []), Row(t2, [])];
      && TimesNeverDecrease(rows) && SortedRows(rows) && Covers([t1, t2], end, rows) && Complete(rows)
      && !Defined(MergeBuffer([t1, t2], end, [], rows).0, 1)
  {
    var t1, t2, end := TimeStamp(1, 0, 7), TimeStamp(2, 0, 8), TimeStamp(3, 0, 0);
    var rows := [Row(t1, []), Row(t1, []), Row(t2, [])];
    var u := [t1, t2];
    assert CommonRun(u, rows, 1) == 1;
    assert CommonRun(u, rows, 0) == 1;
    UndefinedAfterRepeat(u, end, [], rows);
  }

  /** Every row that stays in the queue is at or after the end of the window. */
  lemma RemainingAtOrAfterEnd(u: seq<TimeStamp>, end: TimeStamp, types: seq<TypeCode>, rows: seq<Row>)
    requires Wide(rows, |types|) && Covers(u, end, rows) && AscendingRows(rows)
    ensures var (g, c) := MergeBuffer(u, end, types, rows);
      && (forall j :: 0 <= j < c ==> Le(rows[j].ts, end))
      && (forall j :: c <= j < |rows| ==> Ge(rows[j].ts, end))
  {
    MergeExact(u, end, types, rows);
    var k := CommonRun(u, rows, 0);
    var (g, c) := MergeBuffer(u, end, types, rows);
    forall j | c <= j < |rows| ensures Ge(rows[j].ts, end) {
      if k == |u| && Lt(rows[j].ts, end) {
        assert false;
      }
    }
  }

  /** The timestamps of the buffer that lie before `end` are an initial run of the union. */
  ghost predicate InitialRun(u: seq<TimeStamp>, end: TimeStamp, rows: seq<Row>) {
    forall j :: 0 <= j < |rows| && Lt(rows[j].ts, end) ==> j < |u| && u[j] == rows[j].ts
  }

  /**
   * The published columns of a buffer are the full outer join exactly when the
   * buffer has no gap before its last row of the window.
   */
  lemma OuterJoinIffInitialRun(u: seq<TimeStamp>, end: TimeStamp, types: seq<TypeCode>, rows: seq<Row>)
    requires Wide(rows, |types|) && Covers(u, end, rows) && AscendingRows(rows)
    ensures OuterJoin(MergeBuffer(u, end, types, rows).0, u, types, rows) <==> InitialRun(u, end, rows)
  {
    MergeExact(u, end, types, rows);
    var g := MergeBuffer(u, end, types, rows).0;
    var k := CommonRun(u, rows, 0);
    if InitialRun(u, end, rows) {
      forall r, j | 0 <= r < |u| && 0 <= j < |rows| && rows[j].ts == u[r] ensures Copied(g, r, rows[j]) {
        assert u[j] == rows[j].ts;
        assert r == j;
        RunCovers(u, end, rows, j);
      }
    } else {
      var j :| 0 <= j < |rows| && Lt(rows[j].ts, end) && !(j < |u| && u[j] == rows[j].ts);
      var r :| 0 <= r < |u| && u[r] == rows[j].ts;
      if r < k {
        assert false;
      }
      assert Blank(g, r, types);
      assert !Copied(g, r, rows[j]);
    }
  }

  lemma {:induction false} RunCovers(u: seq<TimeStamp>, end: TimeStamp, rows: seq<Row>, j: nat)
    requires j < |rows| && Lt(rows[j].ts, end) && AscendingRows(rows) && InitialRun(u, end, rows)
    ensures j < CommonRun(u, rows, 0)
  {
    assert forall i :: 0 <= i <= j ==> Lt(rows[i].ts, end);
  }
}
