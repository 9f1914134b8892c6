/** The HDF5 writer: one append-only dataset per column. */
module Writers {
  import opened Results
  import opened TimeTables
  import opened FileStructure

  /** The concatenation, in order, of column i over the accepted updates. */
  function ColumnOver(accepted: seq<seq<Column>>, i: nat): seq<Cell>
    requires forall k :: 0 <= k < |accepted| ==> i < |accepted[k]|
  {
    if accepted == [] then [] else ColumnOver(accepted[..|accepted| - 1], i) + accepted[|accepted| - 1][i].data
  }

  function RowCount(accepted: seq<seq<Column>>): nat
    requires forall k :: 0 <= k < |accepted| ==> accepted[k] != []
  {
    if accepted == [] then 0 else RowCount(accepted[..|accepted| - 1]) + |accepted[|accepted| - 1][0].data|
  }

  /** Updates of one width whose columns are equally long give equally long datasets. */
  lemma {:induction false} ColumnsEquallyLong(accepted: seq<seq<Column>>, width: nat, i: nat)
    requires i < width && forall k :: 0 <= k < |accepted| ==> |accepted[k]| == width && EqualLengths(accepted[k])
    ensures |ColumnOver(accepted, i)| == RowCount(accepted)
  {
    if accepted != [] {
      ColumnsEquallyLong(accepted[..|accepted| - 1], width, i);
    }
  }

  lemma {:induction false} ColumnOverSnoc(accepted: seq<seq<Column>>, columns: seq<Column>, i: nat)
    requires i < |columns| && forall k :: 0 <= k < |accepted| ==> i < |accepted[k]|
    ensures ColumnOver(accepted + [columns], i) == ColumnOver(accepted, i) + columns[i].data
  {
    assert (accepted + [columns])[..|accepted|] == accepted;
  }

  /** Structure members have distinct names, which the value type guarantees. */
  ghost predicate DistinctMembers(v: Value) {
    v.Value? && v.columns.Some? ==>
      forall i, j :: 0 <= i < j < |v.columns.value| ==> v.columns.value[i].name != v.columns.value[j].name
  }

  /** A type can be derived from the value, and the file structure built for it; see BuildSucceedsIff. */
  ghost predicate HasStructure(v: Value, labelSep: string, colSep: string)
    requires labelSep != "" && colSep != ""
  {
    && Labelled(v) && TimeNamed(v) && |SpecsOf(v)| >= NUM_TIME_COLS
    && Built(TimeColumns(SpecsOf(v)), DataColumns(SpecsOf(v)), labelSep, colSep).Ok?
  }

  /** The first update is written exactly when, besides, its columns are of one length. */
  ghost predicate StartsWriter(v: Value, labelSep: string, colSep: string)
    requires labelSep != "" && colSep != ""
  {
    HasStructure(v, labelSep, colSep) && EqualLengths(v.columns.value)
  }

  /** The type after an accepted update: the first update with columns fixes it. */
  ghost function TypeAfter(typ: Option<seq<ColumnSpec>>, value: Value): Option<seq<ColumnSpec>> {
    if typ.None? && Labelled(value) then Some(SpecsOf(value)) else typ
  }

  /** Whether an update is accepted by a writer of this type. */
  ghost predicate AcceptsUpdate(typ: Option<seq<ColumnSpec>>, value: Value, labelSep: string, colSep: string)
    requires labelSep != "" && colSep != ""
  {
    || value.NoValue?
    || if typ.None? then StartsWriter(value, labelSep, colSep) else !HasRows(value) || Fits(typ.value, value)
  }

  /** The number of updates accepted before the first refused one. */
  ghost function Handled(typ: Option<seq<ColumnSpec>>, values: seq<Value>, labelSep: string, colSep: string): (n: nat)
    requires labelSep != "" && colSep != ""
    ensures n <= |values|
    decreases |values|
  {
    if values == [] || !AcceptsUpdate(typ, values[0], labelSep, colSep) then 0
    else 1 + Handled(TypeAfter(typ, values[0]), values[1..], labelSep, colSep)
  }

  class Writer {
    const labelSep: string
    const colSep: string
    var typ: Option<seq<ColumnSpec>>
    var datasets: map<string, seq<Cell>>
    var broken: bool                        // the file structure could not be built
    ghost var accepted: seq<seq<Column>>    // the columns of every update written so far

    /** Each dataset is the concatenation of its column over the accepted updates. */
    ghost predicate Valid()
      reads this
    {
      && labelSep != "" && colSep != ""
      && (typ.None? ==> accepted == [] && datasets == map[] && !broken)
      && (typ.Some? && !broken ==> TimesFirst(typ.value) && Appended(typ.value, datasets, accepted))
    }

    constructor (labelSep: string, colSep: string)
      requires labelSep != "" && colSep != ""
      ensures Valid() && typ == None && accepted == []
      ensures this.labelSep == labelSep && this.colSep == colSep
    {
      this.labelSep, this.colSep := labelSep, colSep;
      typ, datasets, broken, accepted := None, map[], false, [];
    }

    /** Fixes the type with the first update and creates an empty dataset for every column. */
    method Start(value: Value) returns (r: Result<()>)
      requires Valid() && typ.None? && DistinctMembers(value)
      requires Width(value)
      modifies this
      ensures Valid() && accepted == []
      ensures r.Ok? <==> HasStructure(value, labelSep, colSep)
      ensures r.Ok? ==> typ == Some(SpecsOf(value)) && !broken
      ensures r.Ok? ==> datasets.Keys == NameSet(typ.value) && forall n :: n in datasets ==> datasets[n] == []
      ensures !(Labelled(value) && TimeNamed(value)) ==> typ.None?
    {
      var specs := FromValue(value);
      if specs.Err? {
        return Err(specs.error);
      }
      typ := Some(specs.value);
      assert DistinctNames(specs.value);
      var built := Build(specs.value, labelSep, colSep);
      if built.Err? {
        broken := true;
        return Err(built.error);
      }
      datasets := EmptyDatasets(specs.value);
      NothingAppended(specs.value, datasets);
      r := Ok(());
    }

    /** Writes one update behind what is there. Only an accepted update changes a dataset. */
    method Write(value: Value) returns (r: Result<()>)
      requires Valid() && !broken && DistinctMembers(value)
      requires Width(value)
      modifies this
      ensures Valid()
      ensures old(typ).Some? ==> typ == old(typ) && !broken
      ensures r.Ok? ==> accepted == old(accepted) + Storable([value], old(typ).Some?)
      ensures r.Err? ==> accepted == old(accepted)
      ensures old(typ).Some? && accepted == old(accepted) ==> datasets == old(datasets)
      ensures r.Ok? <==> AcceptsUpdate(old(typ), value, labelSep, colSep)
      ensures r.Ok? ==> !broken && typ == TypeAfter(old(typ), value)
      ensures old(typ).Some? && HasRows(value) ==> (r.Ok? <==> Conforms(old(typ).value, value))
      ensures old(typ).Some? && !HasRows(value) ==> r.Ok? && accepted == old(accepted) && datasets == old(datasets)
      ensures old(typ).Some? && HasRows(value) && r.Ok? ==>
        && accepted == old(accepted) + [value.columns.value]
        && Extended(old(typ).value, old(datasets), datasets, value.columns.value)
      ensures old(typ).Some? && Conforms(old(typ).value, value) && value.columns.value[0].data != [] ==>
        && r.Ok? && accepted == old(accepted) + [value.columns.value]
        && Extended(old(typ).value, old(datasets), datasets, value.columns.value)
      ensures old(typ).None? && HasColumns(value) && r.Ok? ==>
        && accepted == [value.columns.value] && typ.Some?
        && Holding(typ.value, datasets, value.columns.value)
    {
      if value.NoValue? {
        return Ok(());
      }
      if typ.None? {
        r := WriteFirst(value);
      } else {
        r := WriteMore(value);
      }
    }

    /** The first update fixes the type and is stored whatever its number of rows. */
    method WriteFirst(value: Value) returns (r: Result<()>)
      requires Valid() && typ.None? && DistinctMembers(value) && value.Value?
      requires Width(value)
      modifies this
      ensures Valid()
      ensures r.Ok? <==> StartsWriter(value, labelSep, colSep)
      ensures r.Ok? ==> !broken && typ == Some(SpecsOf(value)) && accepted == [value.columns.value]
      ensures r.Ok? ==> Holding(typ.value, datasets, value.columns.value)
      ensures r.Err? ==> accepted == []
    {
      r := Start(value);
      if r.Err? {
        return;
      }
      ghost var before := datasets;
      r := Store(value);
      if r.Ok? { ExtendedFromNothing(typ.value, before, datasets, value.columns.value); }
    }

    /** A later update is stored if it has rows, and refused if it has rows but does not fit. */
    method WriteMore(value: Value) returns (r: Result<()>)
      requires Valid() && typ.Some? && !broken && DistinctMembers(value) && value.Value?
      modifies this`datasets, this`accepted
      ensures Valid()
      ensures !HasRows(value) ==> r.Ok? && accepted == old(accepted) && datasets == old(datasets)
      ensures HasRows(value) ==> (r.Ok? <==> Conforms(typ.value, value)) && (r.Ok? <==> Fits(typ.value, value))
      ensures HasRows(value) && r.Ok? ==> accepted == old(accepted) + [value.columns.value]
      ensures HasRows(value) && r.Ok? ==> Extended(typ.value, old(datasets), datasets, value.columns.value)
      ensures r.Err? ==> accepted == old(accepted) && datasets == old(datasets)
    {
      TimeRowsIff(value);
      var rows := TimeRows(value);
      if rows == 0 {
        return Ok(());
      }
      r := Store(value);
    }

    /** Appends an update to the datasets if it fits the type. */
    method Store(value: Value) returns (r: Result<()>)
      requires Valid() && typ.Some? && !broken
      modifies this`datasets, this`accepted
      ensures Valid()
      ensures r.Ok? <==> Conforms(typ.value, value)
      ensures r.Ok? <==> Fits(typ.value, value)
      ensures r.Ok? ==> accepted == old(accepted) + [value.columns.value]
      ensures r.Ok? ==> Extended(typ.value, old(datasets), datasets, value.columns.value)
      ensures r.Err? ==> accepted == old(accepted) && datasets == old(datasets)
    {
      var fits := IsValid(typ.value, value);
      if !fits {
        return Err(RuntimeError);
      }
      ghost var before := datasets;
      AppendAll(value.columns.value);
      AppendedGrows(typ.value, before, datasets, accepted, value.columns.value);
      accepted := accepted + [value.columns.value];
      r := Ok(());
    }

    /**
     * Draining the update queue: writes one update after the other until one
     * is refused; what came before that one is stored.
     */
    method WriteAll(values: seq<Value>) returns (r: Result<()>)
      requires Valid() && !broken
      requires forall k :: 0 <= k < |values| ==> DistinctMembers(values[k]) && Width(values[k])
      modifies this
      ensures Valid()
      ensures r.Ok? <==> Handled(old(typ), values, labelSep, colSep) == |values|
      ensures var n := Handled(old(typ), values, labelSep, colSep);
        accepted == old(accepted) + Storable(values[..n], old(typ).Some?)
      ensures r.Ok? ==> !broken
      ensures old(typ).Some? ==>
        (r.Err? <==> exists k :: 0 <= k < |values| && HasRows(values[k]) && !Conforms(old(typ).value, values[k]))
      ensures old(typ).Some? && (forall k :: 0 <= k < |values| ==> HasRows(values[k])) && r.Ok? ==>
        && |accepted| == |old(accepted)| + |values| && accepted[..|old(accepted)|] == old(accepted)
        && forall k :: 0 <= k < |values| ==> accepted[|old(accepted)| + k] == values[k].columns.value
    {
      r := Drain(values);
      if old(typ).Some? {
        HandledAllIff(old(typ).value, values, labelSep, colSep);
        StorableAll(values);
        assert values[..|values|] == values;
      }
    }

    method Drain(values: seq<Value>) returns (r: Result<()>)
      requires Valid() && !broken
      requires forall k :: 0 <= k < |values| ==> DistinctMembers(values[k]) && Width(values[k])
      modifies this
      ensures Valid()
      ensures r.Ok? <==> Handled(old(typ), values, labelSep, colSep) == |values|
      ensures var n := Handled(old(typ), values, labelSep, colSep);
        accepted == old(accepted) + Storable(values[..n], old(typ).Some?)
      ensures r.Ok? ==> !broken
    {
      ghost var before, started := accepted, typ.Some?;
      ghost var n := Handled(typ, values, labelSep, colSep);
      for i := 0 to |values|
        invariant Valid() && !broken && i + Handled(typ, values[i..], labelSep, colSep) == n
        invariant accepted + Storable(values[i..n], typ.Some?) == before + Storable(values[..n], started)
      {
        HandledStep(typ, values, i, n, labelSep, colSep);
        if i < n { StorableStep(values, i, n, typ.Some?); }
        ghost var was, had := accepted, typ.Some?;
        r := Write(values[i]);
        if r.Err? {
          assert values[i..n] == [];
          return;
        }
        StoreOne(was, Storable([values[i]], had), Storable(values[i + 1..n], typ.Some?), accepted,
          before + Storable(values[..n], started));
      }
      assert values[|values|..n] == [];
      r := Ok(());
    }

    /** Appends every column of an accepted update to its dataset, which is always found. */
    method AppendAll(columns: seq<Column>)
      requires typ.Some? && DistinctNames(typ.value) && datasets.Keys == NameSet(typ.value) && |columns| == |typ.value|
      modifies this`datasets
      ensures Extended(typ.value, old(datasets), datasets, columns)
    {
      var specs := typ.value;
      for i := 0 to |specs|
        invariant datasets.Keys == old(datasets.Keys)
        invariant forall k :: 0 <= k < i ==> datasets[specs[k].name] == old(datasets)[specs[k].name] + columns[k].data
        invariant forall k :: i <= k < |specs| ==> datasets[specs[k].name] == old(datasets)[specs[k].name]
      {
        datasets := datasets[specs[i].name := datasets[specs[i].name] + columns[i].data];
      }
    }
  }

  /** The number of rows an update seems to have: 0 when its seconds column is missing. */
  function TimeRows(v: Value): nat {
    if v.Value? && v.columns.Some? then RowsIn(v.columns.value) else 0
  }

  function RowsIn(columns: seq<Column>): nat {
    if columns == [] then 0
    else if columns[0].name == SECONDS_PAST_EPOCH.name then |columns[0].data|
    else RowsIn(columns[1..])
  }

  predicate HasColumns(v: Value) { v.Value? && v.columns.Some? }

  ghost predicate Width(v: Value) { HasColumns(v) ==> |v.columns.value| >= NUM_TIME_COLS }

  /** Some seconds column of the update holds a row. */
  ghost predicate HasRows(v: Value) {
    HasColumns(v) && AnyRows(v.columns.value)
  }

  ghost predicate AnyRows(columns: seq<Column>) {
    exists i :: 0 <= i < |columns| && columns[i].name == "secondsPastEpoch" && columns[i].data != []
  }

  lemma {:induction false} RowsInIff(columns: seq<Column>)
    requires forall i, j :: 0 <= i < j < |columns| ==> columns[i].name != columns[j].name
    ensures RowsIn(columns) > 0 <==> AnyRows(columns)
  {
    if columns != [] {
      RowsInIff(columns[1..]);
      if columns[0].name != "secondsPastEpoch" && RowsIn(columns) > 0 {
        var i :| 0 <= i < |columns[1..]| && columns[1..][i].name == "secondsPastEpoch" && columns[1..][i].data != [];
        assert columns[i + 1] == columns[1..][i];
      }
      if i :| 0 <= i < |columns| && columns[i].name == "secondsPastEpoch" && columns[i].data != [] {
        if i > 0 { assert columns[1..][i - 1] == columns[i]; }
      }
    }
  }

  /** The count finds rows exactly where there are some. */
  lemma TimeRowsIff(v: Value)
    requires DistinctMembers(v)
    ensures TimeRows(v) > 0 <==> HasRows(v)
  {
    if HasColumns(v) { RowsInIff(v.columns.value); }
  }

  /** The updates to be stored: the first one that is not empty, and every later one that has rows. */
  ghost function Storable(values: seq<Value>, started: bool): seq<seq<Column>> {
    if values == [] then []
    else if !HasColumns(values[0]) then Storable(values[1..], started)
    else if started && !HasRows(values[0]) then Storable(values[1..], started)
    else [values[0].columns.value] + Storable(values[1..], true)
  }

  lemma StorableFirst(values: seq<Value>, started: bool)
    requires values != []
    ensures Storable(values, started) ==
            Storable([values[0]], started) + Storable(values[1..], started || HasColumns(values[0]))
  {
    assert forall st :: Storable([values[0]][1..], st) == [];
  }

  lemma {:induction false} StorableStep(values: seq<Value>, i: nat, n: nat, started: bool)
    requires i < n <= |values|
    ensures Storable(values[i..n], started) ==
            Storable([values[i]], started) + Storable(values[i + 1..n], started || HasColumns(values[i]))
  {
    StorableFirst(values[i..n], started);
    assert values[i..n][1..] == values[i + 1..n];
  }

  lemma StoreOne<T>(before: seq<T>, x: seq<T>, later: seq<T>, after: seq<T>, all: seq<T>)
    requires before + (x + later) == all && after == before + x
    ensures after + later == all
  {
  }

  /** A running writer handles a queue to its end exactly when every update with rows fits. */
  lemma {:induction false} HandledAllIff(specs: seq<ColumnSpec>, values: seq<Value>, labelSep: string, colSep: string)
    requires labelSep != "" && colSep != ""
    ensures Handled(Some(specs), values, labelSep, colSep) == |values| <==>
            forall k :: 0 <= k < |values| && HasRows(values[k]) ==> Conforms(specs, values[k])
  {
    if values != [] {
      FitsMeans(specs, values[0]);
      HandledAllIff(specs, values[1..], labelSep, colSep);
      assert forall k :: 1 <= k < |values| ==> values[k] == values[1..][k - 1];
    }
  }

  /** Updates that all have rows are all stored. */
  lemma {:induction false} StorableAll(values: seq<Value>)
    ensures (forall k :: 0 <= k < |values| ==> HasRows(values[k])) ==>
      && |Storable(values, true)| == |values|
      && forall k :: 0 <= k < |values| ==> Storable(values, true)[k] == values[k].columns.value
  {
    if values != [] {
      StorableAll(values[1..]);
      assert forall k :: 1 <= k < |values| ==> values[k] == values[1..][k - 1];
    }
  }

  /** The next update is accepted exactly when it lies before the first refused one. */
  lemma {:induction false} HandledStep(typ: Option<seq<ColumnSpec>>, values: seq<Value>, i: nat, n: nat,
        labelSep: string, colSep: string)
    requires labelSep != "" && colSep != "" && i < |values| && i + Handled(typ, values[i..], labelSep, colSep) == n
    ensures n <= |values| && (i < n <==> AcceptsUpdate(typ, values[i], labelSep, colSep))
    ensures i < n ==> i + 1 + Handled(TypeAfter(typ, values[i]), values[i + 1..], labelSep, colSep) == n
  {
    assert values[i..][1..] == values[i + 1..];
  }

  function NameSet(specs: seq<ColumnSpec>): set<string> { set i | 0 <= i < |specs| :: specs[i].name }

  /** Every dataset has grown by its column. */
  ghost predicate Extended(specs: seq<ColumnSpec>, before: map<string, seq<Cell>>, after: map<string, seq<Cell>>,
        columns: seq<Column>) {
    && before.Keys == after.Keys == NameSet(specs) && |columns| == |specs|
    && forall k :: 0 <= k < |specs| ==> after[specs[k].name] == before[specs[k].name] + columns[k].data
  }

  /** Every dataset is its column. */
  ghost predicate Holding(specs: seq<ColumnSpec>, datasets: map<string, seq<Cell>>, columns: seq<Column>) {
    && datasets.Keys == NameSet(specs) && |columns| == |specs|
    && forall k :: 0 <= k < |specs| ==> datasets[specs[k].name] == columns[k].data
  }

  lemma ExtendedFromNothing(specs: seq<ColumnSpec>, before: map<string, seq<Cell>>, after: map<string, seq<Cell>>,
        columns: seq<Column>)
    requires Extended(specs, before, after, columns) && forall n :: n in before ==> before[n] == []
    ensures Holding(specs, after, columns)
  {
    forall k | 0 <= k < |specs| ensures after[specs[k].name] == columns[k].data {
      assert specs[k].name in before;
    }
  }

  ghost predicate Appended(specs: seq<ColumnSpec>, datasets: map<string, seq<Cell>>, accepted: seq<seq<Column>>) {
    && DistinctNames(specs) && |specs| >= NUM_TIME_COLS
    && datasets.Keys == NameSet(specs)
    && (forall k :: 0 <= k < |accepted| ==> |accepted[k]| == |specs| && EqualLengths(accepted[k]))
    && (forall i :: 0 <= i < |specs| ==> datasets[specs[i].name] == ColumnOver(accepted, i))
  }

  lemma AppendedGrows(specs: seq<ColumnSpec>, before: map<string, seq<Cell>>, after: map<string, seq<Cell>>,
                      accepted: seq<seq<Column>>, columns: seq<Column>)
    requires Appended(specs, before, accepted) && EqualLengths(columns) && Extended(specs, before, after, columns)
    ensures Appended(specs, after, accepted + [columns])
  {
    forall k | 0 <= k < |specs|
      ensures ColumnOver(accepted + [columns], k) == ColumnOver(accepted, k) + columns[k].data
    {
      ColumnOverSnoc(accepted, columns, k);
    }
  }

  lemma NothingAppended(specs: seq<ColumnSpec>, datasets: map<string, seq<Cell>>)
    requires DistinctNames(specs) && |specs| >= NUM_TIME_COLS && datasets.Keys == NameSet(specs)
    requires forall n :: n in datasets ==> datasets[n] == []
    ensures Appended(specs, datasets, [])
  {
  }

  /** All datasets of a running writer are equally long: the rows of the accepted updates. */
  lemma {:induction false} DatasetsEquallyLong(specs: seq<ColumnSpec>, datasets: map<string, seq<Cell>>,
        accepted: seq<seq<Column>>)
    requires Appended(specs, datasets, accepted)
    ensures forall n :: n in datasets ==> |datasets[n]| == RowCount(accepted)
  {
    forall n | n in datasets ensures |datasets[n]| == RowCount(accepted) {
      var i :| 0 <= i < |specs| && specs[i].name == n;
      ColumnsEquallyLong(accepted, |specs|, i);
    }
  }

  method EmptyDatasets(specs: seq<ColumnSpec>) returns (m: map<string, seq<Cell>>)
    ensures m.Keys == NameSet(specs)
    ensures forall n :: n in m ==> m[n] == []
  {
    m := map[];
    for i := 0 to |specs|
      invariant m.Keys == set k | 0 <= k < i :: specs[k].name
      invariant forall n :: n in m ==> m[n] == []
    {
      if specs[i].name !in m {
        m := m[specs[i].name := []];
      }
    }
  }
}
