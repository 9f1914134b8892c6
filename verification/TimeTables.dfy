/** NTTable values with time columns: deriving a type from a value and validating values. */
module TimeTables {
  import opened Results
  import opened TimeStamps

  /** The array element types a column may have. */
  datatype TypeCode =
    | BoolA | Int8A | Int16A | Int32A | Int64A | UInt8A | UInt16A | UInt32A | UInt64A
    | Float32A | Float64A | StringA

  /** One table cell; Unwritten is memory of a fresh array that nothing has been stored in. */
  datatype Cell = Unwritten | Bool(b: bool) | Int(i: int) | Float(x: real) | Str(s: string)

  /** The value-initialised cell of a column type. */
  function Default(t: TypeCode): Cell {
    match t
    case BoolA => Bool(false)
    case Float32A => Float(0.0)
    case Float64A => Float(0.0)
    case StringA => Str("")
    case _ => Int(0)
  }

  datatype ColumnSpec = ColumnSpec(typ: TypeCode, name: string, labelText: string)
  datatype Column = Column(typ: TypeCode, name: string, data: seq<Cell>)

  /** A received or created value: its "labels" and "value" fields may be absent. */
  datatype Value = NoValue | Value(labels: Option<seq<string>>, columns: Option<seq<Column>>)

  const NUM_TIME_COLS: nat := 3
  const SECONDS_PAST_EPOCH := ColumnSpec(UInt32A, "secondsPastEpoch", "secondsPastEpoch")
  const NANOSECONDS := ColumnSpec(UInt32A, "nanoseconds", "nanoseconds")
  const PULSE_ID := ColumnSpec(UInt64A, "pulseId", "pulseId")
  const TIME_COLUMNS := [SECONDS_PAST_EPOCH, NANOSECONDS, PULSE_ID]

  /** The columns of a table with the given data columns. */
  function FromDataColumns(data: seq<ColumnSpec>): seq<ColumnSpec> { TIME_COLUMNS + data }

  function DataColumns(columns: seq<ColumnSpec>): seq<ColumnSpec>
    requires |columns| >= NUM_TIME_COLS
  {
    columns[NUM_TIME_COLS..]
  }

  /** Both fields are present and there is one label for each column. */
  predicate Labelled(v: Value) {
    v.Value? && v.labels.Some? && v.columns.Some? && |v.labels.value| == |v.columns.value|
  }

  /** Those of the first three columns that exist carry the names of the time columns. */
  predicate TimeNamed(v: Value)
    requires Labelled(v)
  {
    forall i :: 0 <= i < NUM_TIME_COLS && i < |v.columns.value| ==> v.columns.value[i].name == TIME_COLUMNS[i].name
  }

  /** The column specifications a labelled value has. */
  function SpecsOf(v: Value): seq<ColumnSpec>
    requires Labelled(v)
  {
    seq(|v.columns.value|, i requires 0 <= i < |v.columns.value| =>
      ColumnSpec(v.columns.value[i].typ, v.columns.value[i].name, v.labels.value[i]))
  }

  predicate EqualLengths(columns: seq<Column>) {
    forall i, j :: 0 <= i < |columns| && 0 <= j < |columns| ==> |columns[i].data| == |columns[j].data|
  }

  /** What it means for a value to fit a table type. */
  predicate Fits(specs: seq<ColumnSpec>, v: Value) {
    Labelled(v) && SpecsOf(v) == specs && EqualLengths(v.columns.value)
  }

  /** The first three columns have the names of the time columns. */
  ghost predicate TimesFirst(specs: seq<ColumnSpec>) {
    && |specs| >= 3
    && specs[0].name == "secondsPastEpoch" && specs[1].name == "nanoseconds" && specs[2].name == "pulseId"
  }

  /** Derives the column specifications from a value. */
  method FromValue(v: Value) returns (r: Result<seq<ColumnSpec>>)
    ensures r.Ok? <==> Labelled(v) && TimeNamed(v)
    ensures r.Ok? ==> r.value == SpecsOf(v)
    ensures r.Ok? ==>
      v.Value? && v.labels.Some? && v.columns.Some? && |v.labels.value| == |v.columns.value| == |r.value|
    ensures r.Ok? ==> forall i :: 0 <= i < |r.value| ==>
      r.value[i] == ColumnSpec(v.columns.value[i].typ, v.columns.value[i].name, v.labels.value[i])
    ensures r.Ok? && |r.value| >= 3 ==> TimesFirst(r.value)
    ensures r.Err? ==> r.error == RuntimeError
  {
    if v.NoValue? || v.labels.None? || v.columns.None? {
      return Err(RuntimeError);
    }
    var labels, columns := v.labels.value, v.columns.value;
    if |labels| != |columns| {
      return Err(RuntimeError);
    }
    var specs := [];
    for idx := 0 to |columns|
      invariant |specs| == idx
      invariant forall i :: 0 <= i < idx ==> specs[i] == SpecsOf(v)[i]
      invariant forall i :: 0 <= i < NUM_TIME_COLS && i < idx ==> columns[i].name == TIME_COLUMNS[i].name
    {
      if idx < NUM_TIME_COLS && TIME_COLUMNS[idx].name != columns[idx].name {
        return Err(RuntimeError);
      }
      specs := specs + [ColumnSpec(columns[idx].typ, columns[idx].name, labels[idx])];
    }
    return Ok(specs);
  }

  /** A set built from the lengths has at most one element exactly when all lengths agree. */
  lemma AtMostOneLength(columns: seq<Column>, lengths: set<nat>)
    requires lengths == set i | 0 <= i < |columns| :: |columns[i].data|
    ensures |lengths| <= 1 <==> EqualLengths(columns)
  {
    if columns != [] {
      var n := |columns[0].data|;
      assert n in lengths;
      if EqualLengths(columns) {
        assert lengths == {n};
      }
      if |lengths| <= 1 {
        assert |lengths - {n}| == 0;
        assert forall i :: 0 <= i < |columns| ==> |columns[i].data| in lengths;
      }
    }
  }

  /** The value has the labels, names and element types of the type, in order, and columns of one length. */
  ghost predicate Conforms(specs: seq<ColumnSpec>, v: Value) {
    && v.Value? && v.labels.Some? && v.columns.Some? && |v.labels.value| == |v.columns.value| == |specs|
    && (forall i :: 0 <= i < |specs| ==>
          && v.columns.value[i].typ == specs[i].typ && v.columns.value[i].name == specs[i].name
          && v.labels.value[i] == specs[i].labelText)
    && (forall i, j :: 0 <= i < |specs| && 0 <= j < |specs| ==>
          |v.columns.value[i].data| == |v.columns.value[j].data|)
  }

  lemma FitsMeans(specs: seq<ColumnSpec>, v: Value)
    ensures Fits(specs, v) <==> Conforms(specs, v)
  {
    if Labelled(v) && |v.columns.value| == |specs| {
      forall i | 0 <= i < |specs|
        ensures SpecsOf(v)[i] == ColumnSpec(v.columns.value[i].typ, v.columns.value[i].name, v.labels.value[i])
      {
      }
    }
  }

  /** TimeTable::is_valid. */
  method IsValid(specs: seq<ColumnSpec>, v: Value) returns (ok: bool)
    ensures ok <==> Fits(specs, v)
    ensures ok <==> Conforms(specs, v)
  {
    FitsMeans(specs, v);
    if v.NoValue? || v.labels.None? || v.columns.None? {
      return false;
    }
    var labels, columns := v.labels.value, v.columns.value;
    if |labels| != |specs| || |columns| != |specs| {
      return false;
    }
    var lengths: set<nat> := {};
    for idx := 0 to |columns|
      invariant forall i :: 0 <= i < idx ==> SpecsOf(v)[i] == specs[i]
      invariant lengths == set i | 0 <= i < idx :: |columns[i].data|
    {
      var spec, col := specs[idx], columns[idx];
      if labels[idx] != spec.labelText || col.name != spec.name || col.typ != spec.typ {
        assert SpecsOf(v)[idx] != specs[idx];
        return false;
      }
      lengths := lengths + {|columns[idx].data|};
    }
    AtMostOneLength(columns, lengths);
    return |lengths| <= 1;
  }

  /** TimeTable::create: labels filled in, every column empty. */
  function Create(specs: seq<ColumnSpec>): (v: Value)
    ensures Labelled(v) && SpecsOf(v) == specs
    ensures forall i :: 0 <= i < |specs| ==> v.columns.value[i].data == []
  {
    Value(Some(seq(|specs|, i requires 0 <= i < |specs| => specs[i].labelText)),
          Some(seq(|specs|, i requires 0 <= i < |specs| => Column(specs[i].typ, specs[i].name, []))))
  }

  /** Stores one array in every column, in column order. */
  function WithColumns(specs: seq<ColumnSpec>, data: seq<seq<Cell>>): Value
    requires |data| == |specs|
  {
    var v := Create(specs);
    v.(columns := Some(seq(|specs|, i requires 0 <= i < |specs| => Column(specs[i].typ, specs[i].name, data[i]))))
  }

  /** A type put into a value is recovered from it, and the value fits it exactly when the columns are of one length. */
  lemma TypeRoundTrip(specs: seq<ColumnSpec>, data: seq<seq<Cell>>)
    requires |data| == |specs|
    ensures Labelled(WithColumns(specs, data)) && SpecsOf(WithColumns(specs, data)) == specs
    ensures Fits(specs, WithColumns(specs, data)) <==>
            forall i, j :: 0 <= i < |data| && 0 <= j < |data| ==> |data[i]| == |data[j]|
  {
    var v := WithColumns(specs, data);
    assert SpecsOf(v) == specs;
    assert forall i :: 0 <= i < |data| ==> v.columns.value[i].data == data[i];
  }

  // ----- rows of a wrapped value -----

  /** A row: its timestamp and the cells of its data columns. */
  datatype Row = Row(ts: TimeStamp, cells: seq<Cell>)

  function AsNat(c: Cell): nat { if c.Int? && c.i >= 0 then c.i else 0 }

  function StampAt(columns: seq<Column>, i: nat): TimeStamp
    requires |columns| >= NUM_TIME_COLS && EqualLengths(columns) && i < |columns[0].data|
  {
    TimeStamp(AsNat(columns[0].data[i]), AsNat(columns[1].data[i]), AsNat(columns[2].data[i]))
  }

  function RowAt(columns: seq<Column>, i: nat): Row
    requires |columns| >= NUM_TIME_COLS && EqualLengths(columns) && i < |columns[0].data|
  {
    Row(StampAt(columns, i), seq(|columns| - NUM_TIME_COLS, c requires 0 <= c < |columns| - NUM_TIME_COLS =>
      columns[c + NUM_TIME_COLS].data[i]))
  }

  /** The cell of a time column holds this number. */
  ghost predicate Holds(c: Cell, n: nat) { c.Int? && c.i >= 0 ==> n == c.i }

  /** The row has the time and the cells that the columns hold at i: cell c is that of data column c. */
  ghost predicate IsRow(columns: seq<Column>, i: nat, row: Row)
    requires |columns| >= 3 && EqualLengths(columns) && i < |columns[0].data|
  {
    && Holds(columns[0].data[i], row.ts.sec)
    && Holds(columns[1].data[i], row.ts.nsec)
    && Holds(columns[2].data[i], row.ts.utag)
    && |row.cells| == |columns| - 3
    && forall c :: 0 <= c < |row.cells| ==> row.cells[c] == columns[3 + c].data[i]
  }

  function RowsOf(columns: seq<Column>): (rows: seq<Row>)
    requires |columns| >= NUM_TIME_COLS && EqualLengths(columns)
    ensures |rows| == |columns[0].data|
    ensures forall i :: 0 <= i < |rows| ==> rows[i] == RowAt(columns, i)
    ensures forall i :: 0 <= i < |rows| ==> IsRow(columns, i, rows[i])
  {
    seq(|columns[0].data|, i requires 0 <= i < |columns[0].data| => RowAt(columns, i))
  }

  function Stamps(rows: seq<Row>): (s: seq<TimeStamp>)
    ensures |s| == |rows|
    ensures forall i :: 0 <= i < |rows| ==> s[i] == rows[i].ts
  {
    seq(|rows|, i requires 0 <= i < |rows| => rows[i].ts)
  }
}
