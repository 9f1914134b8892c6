/** Where the cells of a posted value come from, column by column and back to the updates themselves. */
module Origins {
  import opened Results
  import opened TimeTables
  import opened TableBuffers
  import opened BufferLists
  import opened Naming
  import opened NameOrder
  import opened Runs
  import opened RunSoundness
  import opened PostedTables
  import opened Threads

  // ----- a row of a posted value and a row of an update -----

  /** The cell is the one of the update, which holds a number. */
  ghost predicate SameNumber(x: Cell, y: Cell) { y.Int? && y.i >= 0 ==> x == y }

  /** Seconds, nanoseconds and pulse id of row r of the first columns are those of row i of the second ones. */
  ghost predicate SameTime(cs: seq<Column>, r: nat, us: seq<Column>, i: nat)
    requires |cs| >= 3 && |us| >= 3 && EqualLengths(cs) && EqualLengths(us) && r < |cs[0].data| && i < |us[0].data|
  {
    && cs[0].name == us[0].name == "secondsPastEpoch" && SameNumber(cs[0].data[r], us[0].data[i])
    && cs[1].name == us[1].name == "nanoseconds" && SameNumber(cs[1].data[r], us[1].data[i])
    && cs[2].name == us[2].name == "pulseId" && SameNumber(cs[2].data[r], us[2].data[i])
  }

  /** The column has the name of the update's column behind the prefix, its element type, and at r its cell. */
  ghost predicate SameCell(c: Column, r: nat, prefix: string, u: Column, i: nat) {
    && c.name == prefix + u.name && c.typ == u.typ
    && r < |c.data| && i < |u.data| && c.data[r] == u.data[i]
  }

  /** Row r of the posted value has the time of row i of the update, and its cells in the columns from `at` on. */
  ghost predicate ShowsUpdate(v: Value, r: nat, at: nat, prefix: string, u: Value, i: nat) {
    && IsTable(v) && IsTable(u) && r < RowCount(v) && i < RowCount(u)
    && SameTime(v.columns.value, r, u.columns.value, i)
    && at + |u.columns.value| - 3 <= |v.columns.value|
    && forall c :: 3 <= c < |u.columns.value| ==>
         SameCell(v.columns.value[at + c - 3], r, prefix, u.columns.value[c], i)
  }

  /** Some update of that PV has such a row. */
  ghost predicate Traced(v: Value, r: nat, at: nat, width: nat, prefix: string, inputs: seq<Input>, name: string) {
    exists k, i: nat :: 0 <= k < |inputs| && inputs[k].Update? && inputs[k].name == name &&
      ShowsUpdate(v, r, at, prefix, inputs[k].value, i) && |inputs[k].value.columns.value| == 3 + width
  }

  ghost predicate FlagSet(v: Value, specs: seq<seq<ColumnSpec>>, b: nat, r: nat)
    requires b < |specs|
  {
    && IsTable(v) && r < RowCount(v) && FlagColumn(specs, b) < |v.columns.value|
    && v.columns.value[FlagColumn(specs, b)].data[r] == Bool(true)
  }

  /** Where the flag of a PV is set, all its columns show one row of one of its updates. */
  ghost predicate AllTraced(posts: seq<Value>, names: seq<string>, specs: seq<seq<ColumnSpec>>, colSep: string,
        inputs: seq<Input>) {
    && |names| == |specs|
    && forall p, b, r: nat :: 0 <= p < |posts| && 0 <= b < |specs| && FlagSet(posts[p], specs, b, r) ==>
         Traced(posts[p], r, FlagColumn(specs, b) + 1, |specs[b]|, ColPrefix(b, |names|) + colSep, inputs, names[b])
  }

  /** By name: the column whose name is that of a column of the update behind the prefix has its cell. */
  lemma TracedByName(v: Value, r: nat, at: nat, prefix: string, u: Value, i: nat, k: nat, c: nat)
    requires ShowsUpdate(v, r, at, prefix, u, i) && k < |v.columns.value| && 3 <= c < |u.columns.value|
    requires forall m, n :: 0 <= m < n < |v.columns.value| ==> v.columns.value[m].name != v.columns.value[n].name
    requires v.columns.value[k].name == prefix + u.columns.value[c].name
    ensures r < |v.columns.value[k].data| && i < |u.columns.value[c].data|
    ensures v.columns.value[k].data[r] == u.columns.value[c].data[i] && v.columns.value[k].typ == u.columns.value[c].typ
  {
    assert SameCell(v.columns.value[at + c - 3], r, prefix, u.columns.value[c], i);
    assert k == at + c - 3;
  }

  // ----- rows and the updates they came in -----

  /** The row is one of an update of that PV, which fitted the type of its buffer. */
  ghost predicate RowFrom(inputs: seq<Input>, name: string, typ: Option<seq<ColumnSpec>>, row: Row) {
    exists k, i: nat :: 0 <= k < |inputs| && inputs[k].Update? && inputs[k].name == name &&
      Accepts(typ, inputs[k].value) && IsRowOf(inputs[k].value, i, row)
  }

  ghost predicate IsRowOf(u: Value, i: nat, row: Row) {
    IsTable(u) && i < RowCount(u) && IsRow(u.columns.value, i, row)
  }

  /** The rows that were there at the beginning came in these updates. */
  ghost predicate HistFrom(hist: seq<seq<Row>>, t: Setting, inputs: seq<Input>) {
    && |hist| == |t.names| == |t.types|
    && forall b, j :: 0 <= b < |hist| && 0 <= j < |hist[b]| ==> RowFrom(inputs, t.names[b], t.types[b], hist[b][j])
  }

  lemma {:induction false} PushedRowsBoth(xs: seq<Event>, ys: seq<Event>, b: nat)
    ensures PushedRows(xs + ys, b) == PushedRows(xs, b) + PushedRows(ys, b)
  {
    if xs == [] {
      assert xs + ys == ys;
    } else {
      PushedRowsBoth(xs[1..], ys, b);
      assert (xs + ys)[1..] == xs[1..] + ys;
    }
  }

  lemma {:induction false} PushedRowsOne(e: Event, b: nat)
    ensures PushedRows([e], b) == if e.Push? && e.b == b then e.rows else []
  {
    assert [e][1..] == [] && PushedRows([], b) == [];
  }

  lemma RowFromMore(inputs: seq<Input>, more: seq<Input>, all: seq<Input>, name: string,
        typ: Option<seq<ColumnSpec>>, row: Row)
    requires RowFrom(inputs, name, typ, row) && (all == inputs + more || all == more + inputs)
    ensures RowFrom(all, name, typ, row)
  {
    var k, i: nat :| 0 <= k < |inputs| && inputs[k].Update? && inputs[k].name == name &&
      Accepts(typ, inputs[k].value) && IsRowOf(inputs[k].value, i, row);
    assert all[if all == inputs + more then k else |more| + k] == inputs[k];
  }

  /** The rows one input brings buffer b come from that input. */
  lemma {:induction false} StepRowsFrom(t: Setting, c: Control, input: Input, b: nat, j: nat)
    requires Matches(t, c) && b < |t.names| && j < |PushedRows(StepsOf(t, c, input), b)|
    ensures RowFrom([input], t.names[b], t.types[b], PushedRows(StepsOf(t, c, input), b)[j])
  {
    var steps := StepsOf(t, c, input);
    if steps != [] {
      PushedRowsOne(steps[0], b);
      assert steps == [steps[0]];
      var rows := RowsOf(input.value.columns.value);
      assert IsRow(input.value.columns.value, j, rows[j]);
      assert [input][0].Update? && IsRowOf([input][0].value, j, rows[j]);
    }
  }

  /** Every row a schedule brings buffer b is a row of one of its updates of that PV. */
  lemma {:induction false} PushedFrom(t: Setting, c: Control, schedule: seq<Input>, b: nat, j: nat, rows: seq<Row>)
    requires Matches(t, c) && b < |t.names| && rows == PushedRows(Steps(t, c, schedule), b) && j < |rows|
    ensures RowFrom(schedule, t.names[b], t.types[b], rows[j])
    decreases |schedule|, 1
  {
    if schedule != [] {
      var first, c1, later := StepsOf(t, c, schedule[0]), Next(t, c, schedule[0]), schedule[1..];
      PushedRowsBoth(first, Steps(t, c1, later), b);
      PushedInTwo(t, c, c1, schedule, b, j, PushedRows(first, b), PushedRows(Steps(t, c1, later), b));
    }
  }

  lemma {:induction false} PushedInTwo(t: Setting, c: Control, c1: Control, schedule: seq<Input>, b: nat, j: nat,
        xs: seq<Row>, ys: seq<Row>)
    requires Matches(t, c) && b < |t.names| && schedule != [] && c1 == Next(t, c, schedule[0]) && j < |xs + ys|
    requires xs == PushedRows(StepsOf(t, c, schedule[0]), b) && ys == PushedRows(Steps(t, c1, schedule[1..]), b)
    ensures RowFrom(schedule, t.names[b], t.types[b], (xs + ys)[j])
    decreases |schedule|, 0
  {
    assert schedule == [schedule[0]] + schedule[1..];
    if j < |xs| {
      StepRowsFrom(t, c, schedule[0], b, j);
      RowFromMore([schedule[0]], schedule[1..], schedule, t.names[b], t.types[b], xs[j]);
    } else {
      PushedFrom(t, c1, schedule[1..], b, j - |xs|, ys);
      RowFromMore(schedule[1..], [schedule[0]], schedule, t.names[b], t.types[b], ys[j - |xs|]);
    }
  }

  /** So is every row of the history behind the schedule. */
  lemma {:induction false} AllRowsFrom(t: Setting, c: Control, hist: seq<seq<Row>>, early: seq<Input>,
        schedule: seq<Input>, b: nat, j: nat, rows: seq<Row>)
    requires Matches(t, c) && HistFrom(hist, t, early) && b < |hist|
    requires rows == hist[b] + PushedRows(Steps(t, c, schedule), b) && j < |rows|
    ensures RowFrom(early + schedule, t.names[b], t.types[b], rows[j])
  {
    if j < |hist[b]| {
      RowFromMore(early, schedule, early + schedule, t.names[b], t.types[b], rows[j]);
    } else {
      PushedFrom(t, c, schedule, b, j - |hist[b]|, PushedRows(Steps(t, c, schedule), b));
      RowFromMore(schedule, early, early + schedule, t.names[b], t.types[b], rows[j]);
    }
  }

  // ----- from the posted cell to the update -----

  lemma AcceptedIsTyped(typ: Option<seq<ColumnSpec>>, u: Value)
    requires Accepts(typ, u) && TimesFirst(typ.value)
    ensures IsTable(u) && |u.columns.value| == |typ.value|
    ensures forall c :: 0 <= c < |typ.value| ==>
      u.columns.value[c].name == typ.value[c].name && u.columns.value[c].typ == typ.value[c].typ
    ensures u.columns.value[0].name == "secondsPastEpoch" && u.columns.value[1].name == "nanoseconds"
    ensures u.columns.value[2].name == "pulseId"
  {
    FitsMeans(typ.value, u);
    assert u.columns.value[0].name == typ.value[0].name;
  }

  /** A shown row of an update is shown cell by cell, under the names and types of the update's columns. */
  lemma ShownIsUpdate(v: Value, names: seq<string>, specs: seq<seq<ColumnSpec>>, colSep: string, b: nat, r: nat,
        row: Row, typ: Option<seq<ColumnSpec>>, u: Value, i: nat)
    requires Typed(v, names, specs, colSep) && IsTable(v) && b < |specs| && r < RowCount(v)
    requires BlockTyped(v, specs, b, ColPrefix(b, |names|) + colSep) && ShowsRow(v, specs, b, r, row)
    requires Accepts(typ, u) && TimesFirst(typ.value) && specs[b] == SpecsOfType(typ) && IsRowOf(u, i, row)
    ensures ShowsUpdate(v, r, FlagColumn(specs, b) + 1, ColPrefix(b, |names|) + colSep, u, i)
    ensures |u.columns.value| == 3 + |specs[b]|
  {
    AcceptedIsTyped(typ, u);
    var at, prefix := FlagColumn(specs, b) + 1, ColPrefix(b, |names|) + colSep;
    forall c | 3 <= c < |u.columns.value|
      ensures SameCell(v.columns.value[at + c - 3], r, prefix, u.columns.value[c], i)
    {
      var d := c - 3;
      assert specs[b][d] == typ.value[c];
      assert v.columns.value[at + d].typ == specs[b][d].typ;
      assert row.cells[d] == u.columns.value[3 + d].data[i];
      assert |v.columns.value[at + d].data| == |v.columns.value[0].data|;
    }
  }

  lemma {:induction false} OneTraced(v: Value, names: seq<string>, specs: seq<seq<ColumnSpec>>, colSep: string, b: nat,
        r: nat, rows: seq<Row>, inputs: seq<Input>, typ: Option<seq<ColumnSpec>>)
    requires Typed(v, names, specs, colSep) && b < |specs| && ShowsOnly(v, specs, b, rows) && FlagSet(v, specs, b, r)
    requires typ.Some? && TimesFirst(typ.value) && specs[b] == SpecsOfType(typ)
    requires forall j :: 0 <= j < |rows| ==> RowFrom(inputs, names[b], typ, rows[j])
    ensures Traced(v, r, FlagColumn(specs, b) + 1, |specs[b]|, ColPrefix(b, |names|) + colSep, inputs, names[b])
  {
    assert !ShowsNothing(v, specs, b, r) && !FlagMissing(v, specs, b, r);
    var j :| 0 <= j < |rows| && ShowsRow(v, specs, b, r, rows[j]);
    assert RowFrom(inputs, names[b], typ, rows[j]) && BlockTyped(v, specs, b, ColPrefix(b, |names|) + colSep);
    var k, i: nat :| 0 <= k < |inputs| && inputs[k].Update? && inputs[k].name == names[b] &&
      Accepts(typ, inputs[k].value) && IsRowOf(inputs[k].value, i, rows[j]);
    ShownIsUpdate(v, names, specs, colSep, b, r, rows[j], typ, inputs[k].value, i);
  }

  /**
   * Where a posted value has a set flag for a PV, all data columns of that PV
   * hold, each under its own name and element type, the cells of one row of one
   * update of that PV, and the time columns that row's time.
   */
  lemma {:induction false} PostsAreTraced(t: Setting, c: Control, posts: seq<Value>, specs: seq<seq<ColumnSpec>>,
        colSep: string, hist: seq<seq<Row>>, early: seq<Input>, schedule: seq<Input>)
    requires Matches(t, c) && |specs| == |t.types| && HistFrom(hist, t, early)
    requires forall b :: 0 <= b < |specs| ==>
      t.types[b].Some? && TimesFirst(t.types[b].value) && specs[b] == SpecsOfType(t.types[b])
    requires forall p :: 0 <= p < |posts| ==> Typed(posts[p], t.names, specs, colSep)
    requires AllShowOnly(posts, specs, hist, Steps(t, c, schedule))
    ensures AllTraced(posts, t.names, specs, colSep, early + schedule)
  {
    forall p, b, r: nat | 0 <= p < |posts| && 0 <= b < |specs| && FlagSet(posts[p], specs, b, r)
      ensures Traced(posts[p], r, FlagColumn(specs, b) + 1, |specs[b]|, ColPrefix(b, |t.names|) + colSep,
                     early + schedule, t.names[b])
    {
      var rows := hist[b] + PushedRows(Steps(t, c, schedule), b);
      forall j | 0 <= j < |rows| ensures RowFrom(early + schedule, t.names[b], t.types[b], rows[j]) {
        AllRowsFrom(t, c, hist, early, schedule, b, j, rows);
      }
      OneTraced(posts[p], t.names, specs, colSep, b, r, rows, early + schedule, t.types[b]);
    }
  }

  // ----- no update is passed over -----

  /** The rows of all updates of a PV, in order. */
  ghost function SentRows(schedule: seq<Input>, name: string): seq<Row> {
    if schedule == [] then []
    else (if schedule[0].Update? && schedule[0].name == name && IsTable(schedule[0].value)
          then RowsOf(schedule[0].value.columns.value) else [])
         + SentRows(schedule[1..], name)
  }

  /** While the listener lives, every input brings a buffer what was sent for its PV. */
  lemma {:induction false} HeardAtOnce(t: Setting, c: Control, input: Input, b: nat)
    requires Matches(t, c) && SortedNames(t.names) && b < |t.names|
    requires c.listening && Next(t, c, input).listening
    ensures PushedRows(StepsOf(t, c, input), b) ==
            if input.Update? && input.name == t.names[b] && IsTable(input.value)
            then RowsOf(input.value.columns.value) else []
  {
    var steps := StepsOf(t, c, input);
    if input.Update? && input.name in t.names {
      var k := IndexOf(t.names, input.name);
      if k != b { SortedDistinct(t.names, k, b); }
      PushedRowsOne(steps[0], b);
      assert steps == [steps[0]];
    } else {
      NoPushIn(steps, b);
    }
  }

  lemma {:induction false} NoPushIn(events: seq<Event>, b: nat)
    requires forall i :: 0 <= i < |events| ==> !events[i].Push?
    ensures PushedRows(events, b) == []
  {
    if events != [] { NoPushIn(events[1..], b); }
  }

  /**
   * As long as the listener lives, what is pushed into the buffer of a PV is
   * exactly the rows of all updates of that PV, in order, whatever else happens.
   */
  lemma {:induction false} NothingUnheard(t: Setting, c: Control, schedule: seq<Input>, b: nat)
    requires Matches(t, c) && SortedNames(t.names) && b < |t.names| && After(t, c, schedule).listening
    ensures PushedRows(Steps(t, c, schedule), b) == SentRows(schedule, t.names[b])
    decreases |schedule|
  {
    if schedule != [] {
      var c1, later := Next(t, c, schedule[0]), schedule[1..];
      StillListening(t, c, schedule);
      PushedRowsBoth(StepsOf(t, c, schedule[0]), Steps(t, c1, later), b);
      HeardAtOnce(t, c, schedule[0], b);
      NothingUnheard(t, c1, later, b);
    }
  }

  lemma {:induction false} StillListening(t: Setting, c: Control, schedule: seq<Input>)
    requires Matches(t, c) && schedule != [] && After(t, c, schedule).listening
    ensures c.listening && Next(t, c, schedule[0]).listening
  {
    if !c.listening { DeafForGood(t, c, schedule); }
    if !Next(t, c, schedule[0]).listening { DeafForGood(t, Next(t, c, schedule[0]), schedule[1..]); }
  }
}
