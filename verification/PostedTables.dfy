/** What the posted values themselves show, read back from their columns. */
module PostedTables {
  import opened TimeStamps
  import opened TimeTables
  import opened RowQueues
  import opened Naming
  import opened BufferLists
  import opened Merging
  import opened MergeTrace
  import opened Alignment
  import opened TimeAlignedTables
  import opened Runs
  import opened Frontiers
  import opened RunSoundness

  /** A value with time columns, all columns of one length. */
  ghost predicate IsTable(v: Value) {
    v.Value? && v.columns.Some? && |v.columns.value| >= NUM_TIME_COLS && EqualLengths(v.columns.value)
  }

  function RowCount(v: Value): nat {
    if v.Value? && v.columns.Some? && v.columns.value != [] then |v.columns.value[0].data| else 0
  }

  function Time(v: Value, r: nat): TimeStamp
    requires IsTable(v) && r < RowCount(v)
  {
    StampAt(v.columns.value, r)
  }

  /** The times in the time columns strictly ascend, within every value and from one to the next. */
  ghost predicate TimesAscend(posts: seq<Value>) {
    && (forall p :: 0 <= p < |posts| ==> IsTable(posts[p]))
    && (forall p, q, i, j :: 0 <= p <= q < |posts| ==>
          0 <= i < RowCount(posts[p]) && 0 <= j < RowCount(posts[q]) && (p == q ==> i < j) ==>
          Lt(Time(posts[p], i), Time(posts[q], j)))
  }

  /** The time columns hold seconds, nanoseconds and pulse id of this time. */
  ghost predicate TimeCells(v: Value, r: nat, t: TimeStamp)
    requires IsTable(v) && r < RowCount(v)
  {
    && v.columns.value[0].data[r] == Int(t.sec)
    && v.columns.value[1].data[r] == Int(t.nsec)
    && v.columns.value[2].data[r] == Int(t.utag)
  }

  /** What a cell without a value holds, by the element type of its column. */
  ghost predicate IsEmpty(t: TypeCode, c: Cell) {
    c == if t == BoolA then Bool(false)
         else if t == Float32A || t == Float64A then Float(0.0)
         else if t == StringA then Str("")
         else Int(0)
  }

  /** Row r of the value shows this row for buffer b: its time, a set flag and its cells. */
  ghost predicate ShowsRow(v: Value, specs: seq<seq<ColumnSpec>>, b: nat, r: nat, row: Row)
    requires IsTable(v) && r < RowCount(v) && b < |specs| && |v.columns.value| >= FlagColumn(specs, b) + 1 + |specs[b]|
  {
    var at := FlagColumn(specs, b);
    && Time(v, r) == row.ts && TimeCells(v, r, row.ts)
    && v.columns.value[at].data[r] == Bool(true) && |row.cells| == |specs[b]|
    && forall c :: 0 <= c < |specs[b]| ==> v.columns.value[at + 1 + c].data[r] == row.cells[c]
  }

  /** Row r of the value shows nothing for buffer b: a cleared flag and empty cells. */
  ghost predicate ShowsNothing(v: Value, specs: seq<seq<ColumnSpec>>, b: nat, r: nat)
    requires IsTable(v) && r < RowCount(v) && b < |specs| && |v.columns.value| >= FlagColumn(specs, b) + 1 + |specs[b]|
  {
    var at := FlagColumn(specs, b);
    && v.columns.value[at].data[r] == Bool(false)
    && forall c :: 0 <= c < |specs[b]| ==> IsEmpty(specs[b][c].typ, v.columns.value[at + 1 + c].data[r])
  }

  /** Row r of the value has a flag for buffer b that was never written. */
  ghost predicate FlagMissing(v: Value, specs: seq<seq<ColumnSpec>>, b: nat, r: nat)
    requires IsTable(v) && r < RowCount(v) && b < |specs| && |v.columns.value| >= FlagColumn(specs, b) + 1 + |specs[b]|
  {
    v.columns.value[FlagColumn(specs, b)].data[r] == Unwritten
  }

  /** Every row shows, for buffer b, nothing or one of the given rows, or was left unwritten. */
  ghost predicate ShowsOnly(v: Value, specs: seq<seq<ColumnSpec>>, b: nat, rows: seq<Row>)
    requires b < |specs|
  {
    && IsTable(v) && |v.columns.value| >= FlagColumn(specs, b) + 1 + |specs[b]|
    && forall r :: 0 <= r < RowCount(v) ==>
         || ShowsNothing(v, specs, b, r) || FlagMissing(v, specs, b, r)
         || exists j :: 0 <= j < |rows| && ShowsRow(v, specs, b, r, rows[j])
  }

  /** Every flag of buffer b is written. */
  ghost predicate FlagsThere(v: Value, specs: seq<seq<ColumnSpec>>, b: nat)
    requires b < |specs|
  {
    && IsTable(v) && |v.columns.value| >= FlagColumn(specs, b) + 1 + |specs[b]|
    && forall r :: 0 <= r < RowCount(v) ==> !FlagMissing(v, specs, b, r)
  }

  ghost predicate AllFlagsThere(posts: seq<Value>, specs: seq<seq<ColumnSpec>>) {
    forall p, b :: 0 <= p < |posts| && 0 <= b < |specs| ==> FlagsThere(posts[p], specs, b)
  }

  /** Every posted value shows, for each buffer, only rows it had at the start or that were pushed since. */
  ghost predicate AllShowOnly(posts: seq<Value>, specs: seq<seq<ColumnSpec>>, hist: seq<seq<Row>>, events: seq<Event>) {
    && |hist| == |specs|
    && forall p, b :: 0 <= p < |posts| && 0 <= b < |hist| ==>
         ShowsOnly(posts[p], specs, b, hist[b] + PushedRows(events, b))
  }

  // ----- where the columns of a buffer are -----

  lemma {:induction false} OffsetOfGrids(grids: seq<Grid>, specs: seq<seq<ColumnSpec>>, b: nat)
    requires b <= |grids| == |specs| && forall i :: 0 <= i < |specs| ==> |grids[i].cols| == |specs[i]|
    ensures Offset(AllGridColumns(grids), b) == b + Offset(specs, b)
  {
    if b > 0 {
      assert AllGridColumns(grids)[1..] == AllGridColumns(grids[1..]);
      OffsetOfGrids(grids[1..], specs[1..], b - 1);
    }
  }

  /** Column k of buffer b's block in a published value is column k of its grid. */
  lemma {:induction false} BlockColumn(full: seq<ColumnSpec>, e: Extraction, specs: seq<seq<ColumnSpec>>, b: nat,
        k: nat)
    requires |OutputColumns(e)| == |full| && b < |e.grids| == |specs| && k <= |specs[b]|
    requires forall i :: 0 <= i < |specs| ==> |e.grids[i].cols| == |specs[i]|
    ensures FlagColumn(specs, b) + k < |full|
    ensures Published(full, e).columns.value[FlagColumn(specs, b) + k].data == GridColumns(e.grids[b])[k]
  {
    OffsetOfGrids(e.grids, specs, b);
    FlattenAt(AllGridColumns(e.grids), b, k);
    assert OutputColumns(e)[FlagColumn(specs, b) + k] == Flatten(AllGridColumns(e.grids))[b + Offset(specs, b) + k];
  }

  lemma {:induction false} DataColumn(full: seq<ColumnSpec>, e: Extraction, specs: seq<seq<ColumnSpec>>, b: nat, c: nat,
        i: nat)
    requires |OutputColumns(e)| == |full| && b < |e.grids| == |specs| && c < |specs[b]|
    requires i == FlagColumn(specs, b) + 1 + c
    requires forall i :: 0 <= i < |specs| ==> |e.grids[i].cols| == |specs[i]|
    ensures i < |full| && Published(full, e).columns.value[i].data == e.grids[b].cols[c]
  {
    BlockColumn(full, e, specs, b, 1 + c);
    assert GridColumns(e.grids[b])[1 + c] == e.grids[b].cols[c];
  }

  /** The time columns hold the published times. */
  lemma PublishedTimes(full: seq<ColumnSpec>, e: Extraction)
    requires |OutputColumns(e)| == |full| && Fits(full, Published(full, e))
    ensures IsTable(Published(full, e)) && RowCount(Published(full, e)) == |e.u|
    ensures forall r :: 0 <= r < |e.u| ==>
      Time(Published(full, e), r) == e.u[r] && TimeCells(Published(full, e), r, e.u[r])
  {
    var columns := Published(full, e).columns.value;
    assert forall i :: 0 <= i < 3 ==> columns[i].data == TimeColumnsOf(e.u)[i];
  }

  /** The columns of v for buffer b have the names and element types of its flags and data columns. */
  ghost predicate BlockTyped(v: Value, specs: seq<seq<ColumnSpec>>, b: nat, prefix: string)
    requires b < |specs|
  {
    var at := FlagColumn(specs, b);
    && v.Value? && v.columns.Some? && |v.columns.value| >= at + 1 + |specs[b]|
    && v.columns.value[at].typ == BoolA && v.columns.value[at].name == prefix + "valid"
    && forall c :: 0 <= c < |specs[b]| ==>
         && v.columns.value[at + 1 + c].typ == specs[b][c].typ
         && v.columns.value[at + 1 + c].name == prefix + specs[b][c].name
  }

  /** Element types and names of all blocks, and the time columns in front. */
  ghost predicate Typed(v: Value, names: seq<string>, specs: seq<seq<ColumnSpec>>, colSep: string) {
    && |names| == |specs| && v.Value? && v.columns.Some? && |v.columns.value| == FlagColumn(specs, |specs|)
    && |v.columns.value| >= 3
    && v.columns.value[0].name == "secondsPastEpoch" && v.columns.value[1].name == "nanoseconds"
    && v.columns.value[2].name == "pulseId"
    && v.columns.value[0].typ == v.columns.value[1].typ == UInt32A && v.columns.value[2].typ == UInt64A
    && forall b :: 0 <= b < |specs| ==> BlockTyped(v, specs, b, ColPrefix(b, |names|) + colSep)
  }

  /** A value that fits a laid out type has the columns laid out. */
  lemma FittingIsTyped(full: seq<ColumnSpec>, v: Value, names: seq<string>, specs: seq<seq<ColumnSpec>>,
        labelSep: string, colSep: string)
    requires LaidOut(full, names, specs, labelSep, colSep) && Fits(full, v)
    ensures Typed(v, names, specs, colSep)
  {
    FitsMeans(full, v);
    forall b | 0 <= b < |specs| ensures BlockTyped(v, specs, b, ColPrefix(b, |names|) + colSep) {
      var at := FlagColumn(specs, b);
      assert BlockLaidOut(full, at, ColPrefix(b, |names|) + colSep, names[b] + labelSep, specs[b]);
      forall c | 0 <= c < |specs[b]|
        ensures v.columns.value[at + 1 + c].typ == specs[b][c].typ
        ensures v.columns.value[at + 1 + c].name == ColPrefix(b, |names|) + colSep + specs[b][c].name
      {
        assert full[at + 1 + c].typ == specs[b][c].typ;
      }
    }
  }

  // ----- published tables are sound -----

  /** The columns of v for buffer b are those of the grid. */
  ghost predicate BlockIs(v: Value, specs: seq<seq<ColumnSpec>>, b: nat, g: Grid)
    requires b < |specs|
  {
    && v.Value? && v.columns.Some? && |v.columns.value| >= FlagColumn(specs, b) + 1 + |specs[b]|
    && |g.cols| == |specs[b]|
    && v.columns.value[FlagColumn(specs, b)].data == g.valid
    && forall c :: 0 <= c < |specs[b]| ==> v.columns.value[FlagColumn(specs, b) + 1 + c].data == g.cols[c]
  }

  lemma {:induction false} PublishedBlock(full: seq<ColumnSpec>, e: Extraction, specs: seq<seq<ColumnSpec>>, b: nat)
    requires |OutputColumns(e)| == |full| && b < |e.grids| == |specs|
    requires forall i :: 0 <= i < |specs| ==> |e.grids[i].cols| == |specs[i]|
    ensures BlockIs(Published(full, e), specs, b, e.grids[b])
  {
    var v, g, at := Published(full, e), e.grids[b], FlagColumn(specs, b);
    BlockColumn(full, e, specs, b, 0);
    BlockColumn(full, e, specs, b, |specs[b]|);
    forall c | 0 <= c < |specs[b]| ensures v.columns.value[at + 1 + c].data == g.cols[c] {
      DataColumn(full, e, specs, b, c, at + 1 + c);
    }
  }

  /** A table published from a sound extraction shows only rows that were pushed, and has the flags it wrote. */
  lemma {:induction false} PublishedShowsOnly(full: seq<ColumnSpec>, e: Extraction, specs: seq<seq<ColumnSpec>>,
        hist: seq<seq<Row>>, b: nat, v: Value)
    requires v == Published(full, e) && Fits(full, v) && PostSound(e, TypesOfAll(specs), hist) && b < |specs|
    ensures ShowsOnly(v, specs, b, hist[b])
    ensures FlagsThere(v, specs, b) <==> FlagsWritten(e.grids[b], |e.u|)
  {
    PublishedTimes(full, e);
    PublishedBlock(full, e, specs, b);
    forall r | 0 <= r < |e.u|
      ensures ShowsNothing(v, specs, b, r) || FlagMissing(v, specs, b, r) ||
              exists j :: 0 <= j < |hist[b]| && ShowsRow(v, specs, b, r, hist[b][j])
    {
      assert RowSound(e, b, r, TypesOfAll(specs)[b], hist[b]);
      RowShown(v, e, specs, b, r, hist[b]);
    }
    FlagsThereIff(v, specs, b, e.grids[b], |e.u|);
  }

  lemma FlagsThereIff(v: Value, specs: seq<seq<ColumnSpec>>, b: nat, g: Grid, n: nat)
    requires IsTable(v) && RowCount(v) == n && b < |specs| && BlockIs(v, specs, b, g) && |g.valid| == n
    ensures FlagsThere(v, specs, b) <==> FlagsWritten(g, n)
  {
    forall r | 0 <= r < n ensures FlagMissing(v, specs, b, r) <==> g.valid[r] == Unwritten {
    }
  }

  lemma RowShown(v: Value, e: Extraction, specs: seq<seq<ColumnSpec>>, b: nat, r: nat, rows: seq<Row>)
    requires IsTable(v) && RowCount(v) == |e.u| && r < |e.u| && Time(v, r) == e.u[r] && TimeCells(v, r, e.u[r])
    requires b < |specs| == |e.grids| && BlockIs(v, specs, b, e.grids[b])
    requires Shaped(e.grids[b], TypesOf(specs[b]), |e.u|) && RowSound(e, b, r, TypesOf(specs[b]), rows)
    ensures ShowsNothing(v, specs, b, r) || FlagMissing(v, specs, b, r) ||
            exists j :: 0 <= j < |rows| && ShowsRow(v, specs, b, r, rows[j])
  {
    var g := e.grids[b];
    if Untouched(g, r) {
      assert FlagMissing(v, specs, b, r);
    } else if Blank(g, r, TypesOf(specs[b])) {
      assert forall c :: 0 <= c < |specs[b]| ==> TypesOf(specs[b])[c] == specs[b][c].typ;
      assert ShowsNothing(v, specs, b, r);
    } else {
      var j :| 0 <= j < |rows| && rows[j].ts == e.u[r] && Copied(g, r, rows[j]);
      assert ShowsRow(v, specs, b, r, rows[j]);
    }
  }

  /** The time columns of posted values ascend exactly when the published times do. */
  lemma PublishedAscend(full: seq<ColumnSpec>, log: seq<Extraction>, posts: seq<Value>)
    requires |posts| == |log|
    requires forall p :: 0 <= p < |log| ==> posts[p] == Published(full, log[p]) && Fits(full, posts[p])
    ensures TimesAscend(posts) <==> TimesIncrease(log)
  {
    forall p | 0 <= p < |posts|
      ensures IsTable(posts[p]) && RowCount(posts[p]) == |log[p].u|
      ensures forall r :: 0 <= r < |log[p].u| ==> Time(posts[p], r) == log[p].u[r]
    {
      PublishedTimes(full, log[p]);
    }
    if TimesIncrease(log) { IncreaseIsAscent(log, posts); }
    if TimesAscend(posts) { AscentIsIncrease(log, posts); }
  }

  /** The values have the published times in their time columns. */
  ghost predicate SameTimes(log: seq<Extraction>, posts: seq<Value>) {
    && |posts| == |log|
    && forall p :: 0 <= p < |posts| ==>
         && IsTable(posts[p]) && RowCount(posts[p]) == |log[p].u|
         && forall r :: 0 <= r < |log[p].u| ==> Time(posts[p], r) == log[p].u[r]
  }

  lemma IncreaseIsAscent(log: seq<Extraction>, posts: seq<Value>)
    requires SameTimes(log, posts) && TimesIncrease(log)
    ensures TimesAscend(posts)
  {
    forall p, q, i, j | && 0 <= p <= q < |posts| && 0 <= i < RowCount(posts[p]) && 0 <= j < RowCount(posts[q])
                        && (p == q ==> i < j)
      ensures Lt(Time(posts[p], i), Time(posts[q], j))
    {
      assert Lt(log[p].u[i], log[q].u[j]);
    }
  }

  lemma AscentIsIncrease(log: seq<Extraction>, posts: seq<Value>)
    requires SameTimes(log, posts) && TimesAscend(posts)
    ensures TimesIncrease(log)
  {
    forall p, q, i, j | && 0 <= p <= q < |log| && 0 <= i < |log[p].u| && 0 <= j < |log[q].u| && (p == q ==> i < j)
      ensures Lt(log[p].u[i], log[q].u[j])
    {
      assert Lt(Time(posts[p], i), Time(posts[q], j));
    }
  }
}
