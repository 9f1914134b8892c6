/** The groups and datasets the writer creates for a table type. */
module FileStructure {
  import opened Results
  import opened TimeTables
  import opened Splitting

  /** What has been created under the root group: groups, and datasets by their path. */
  datatype Created = Created(groups: set<string>, paths: set<seq<string>>, pvnames: set<string>)

  const EMPTY := Created({}, {}, {})

  function LabelParts(c: ColumnSpec, labelSep: string): Option<Parts>
    requires labelSep != ""
  {
    Split(c.labelText, labelSep)
  }

  function NameParts(c: ColumnSpec, colSep: string): Option<Parts>
    requires colSep != ""
  {
    Split(c.name, colSep)
  }

  /** createDataSet fails where the path is taken, by a dataset or by a group. */
  function CreateTimeDataSet(l: Created, c: ColumnSpec): Result<Created> {
    if [c.name] in l.paths || c.name in l.groups then Err(StorageError) else Ok(l.(paths := l.paths + {[c.name]}))
  }

  /** One data column: a group when its PV is new, then a dataset in the group of its prefix. */
  function CreateDataColumn(l: Created, c: ColumnSpec, labelSep: string, colSep: string): Result<Created>
    requires labelSep != "" && colSep != ""
  {
    var lp, np := LabelParts(c, labelSep), NameParts(c, colSep);
    if lp.None? || np.None? then Err(RuntimeError)
    else
      var pvname, prefix, suffix := lp.value.prefix, np.value.prefix, np.value.suffix;
      if pvname !in l.pvnames && (prefix in l.groups || [prefix] in l.paths) then Err(StorageError)
      else
        var l' := if pvname in l.pvnames then l else l.(groups := l.groups + {prefix}, pvnames := l.pvnames + {pvname});
        if prefix !in l'.groups || [prefix, suffix] in l'.paths then Err(StorageError)
        else Ok(l'.(paths := l'.paths + {[prefix, suffix]}))
  }

  function TimeBuilt(times: seq<ColumnSpec>): Result<Created> {
    if times == [] then Ok(EMPTY)
    else
      var r := TimeBuilt(times[..|times| - 1]);
      if r.Err? then r else CreateTimeDataSet(r.value, times[|times| - 1])
  }

  /** What is created for time columns and data columns, in that order. */
  function Built(times: seq<ColumnSpec>, data: seq<ColumnSpec>, labelSep: string, colSep: string): Result<Created>
    requires labelSep != "" && colSep != ""
  {
    if data == [] then TimeBuilt(times)
    else
      var r := Built(times, data[..|data| - 1], labelSep, colSep);
      if r.Err? then r else CreateDataColumn(r.value, data[|data| - 1], labelSep, colSep)
  }

  function TimeColumns(columns: seq<ColumnSpec>): seq<ColumnSpec>
    requires |columns| >= NUM_TIME_COLS
  {
    columns[..NUM_TIME_COLS]
  }

  /** Writer::build_file_structure. */
  method Build(columns: seq<ColumnSpec>, labelSep: string, colSep: string) returns (r: Result<Created>)
    requires labelSep != "" && colSep != "" && |columns| >= NUM_TIME_COLS
    ensures r == Built(TimeColumns(columns), DataColumns(columns), labelSep, colSep)
    ensures r.Ok? <==>
      && DistinctNames(TimeColumns(columns)) && DistinctNames(DataColumns(columns))
      && Buildable(TimeColumns(columns), DataColumns(columns), labelSep, colSep)
    ensures r.Ok? ==> Standing(r.value, TimeColumns(columns), DataColumns(columns), labelSep, colSep)
  {
    r := CreateAll(TimeColumns(columns), DataColumns(columns), labelSep, colSep);
    BuildSucceedsIff(TimeColumns(columns), DataColumns(columns), labelSep, colSep);
  }

  /** The loops over time columns and data columns. */
  method CreateAll(times: seq<ColumnSpec>, data: seq<ColumnSpec>, labelSep: string, colSep: string)
    returns (r: Result<Created>)
    requires labelSep != "" && colSep != ""
    ensures r == Built(times, data, labelSep, colSep)
  {
    var l := EMPTY;
    for i := 0 to |times|
      invariant TimeBuilt(times[..i]) == Ok(l)
    {
      TimeSnoc(times[..i], times[i]);
      assert times[..i + 1] == times[..i] + [times[i]];
      var made := CreateTimeDataSet(l, times[i]);
      if made.Err? {
        TimeFailureStays(times, i + 1, data, labelSep, colSep);
        return made;
      }
      l := made.value;
    }
    assert times[..|times|] == times;
    for i := 0 to |data|
      invariant Built(times, data[..i], labelSep, colSep) == Ok(l)
    {
      BuiltSnoc(times, data[..i], data[i], labelSep, colSep);
      assert data[..i + 1] == data[..i] + [data[i]];
      var made := CreateDataColumn(l, data[i], labelSep, colSep);
      if made.Err? {
        FailureStays(times, data, i + 1, labelSep, colSep);
        return made;
      }
      l := made.value;
    }
    assert data[..|data|] == data;
    return Ok(l);
  }

  lemma {:induction false} TimeSnoc(times: seq<ColumnSpec>, c: ColumnSpec)
    ensures TimeBuilt(times + [c]) ==
            if TimeBuilt(times).Err? then TimeBuilt(times) else CreateTimeDataSet(TimeBuilt(times).value, c)
  {
    assert (times + [c])[..|times|] == times;
  }

  lemma {:induction false} BuiltSnoc(times: seq<ColumnSpec>, data: seq<ColumnSpec>, c: ColumnSpec,
        labelSep: string, colSep: string)
    requires labelSep != "" && colSep != ""
    ensures var r := Built(times, data, labelSep, colSep);
      Built(times, data + [c], labelSep, colSep) == if r.Err? then r else CreateDataColumn(r.value, c, labelSep, colSep)
  {
    assert (data + [c])[..|data|] == data;
  }

  lemma {:induction false} TimeFailureStays(times: seq<ColumnSpec>, n: nat, data: seq<ColumnSpec>,
        labelSep: string, colSep: string)
    requires labelSep != "" && colSep != "" && n <= |times| && TimeBuilt(times[..n]).Err?
    ensures Built(times, data, labelSep, colSep) == TimeBuilt(times[..n])
    decreases |times| - n
  {
    if n < |times| {
      TimeSnoc(times[..n], times[n]);
      assert times[..n + 1] == times[..n] + [times[n]];
      TimeFailureStays(times, n + 1, data, labelSep, colSep);
    } else {
      assert times[..n] == times;
      FailureStays(times, data, 0, labelSep, colSep);
    }
  }

  lemma {:induction false} FailureStays(times: seq<ColumnSpec>, data: seq<ColumnSpec>, n: nat, labelSep: string,
        colSep: string)
    requires labelSep != "" && colSep != "" && n <= |data| && Built(times, data[..n], labelSep, colSep).Err?
    ensures Built(times, data, labelSep, colSep) == Built(times, data[..n], labelSep, colSep)
    decreases |data| - n
  {
    if n < |data| {
      BuiltSnoc(times, data[..n], data[n], labelSep, colSep);
      assert data[..n + 1] == data[..n] + [data[n]];
      FailureStays(times, data, n + 1, labelSep, colSep);
    } else {
      assert data[..n] == data;
    }
  }

  // ----- when the structure can be built -----

  ghost predicate DistinctNames(columns: seq<ColumnSpec>) {
    forall i, j :: 0 <= i < j < |columns| ==> columns[i].name != columns[j].name
  }

  ghost predicate Splits(c: ColumnSpec, labelSep: string, colSep: string)
    requires labelSep != "" && colSep != ""
  {
    LabelParts(c, labelSep).Some? && NameParts(c, colSep).Some?
  }

  function PvOf(c: ColumnSpec, labelSep: string): string
    requires labelSep != ""
  {
    if LabelParts(c, labelSep).Some? then LabelParts(c, labelSep).value.prefix else ""
  }

  function GroupOf(c: ColumnSpec, colSep: string): string
    requires colSep != ""
  {
    if NameParts(c, colSep).Some? then NameParts(c, colSep).value.prefix else ""
  }

  /** The path of a data column; only the suffix matters beside the group. */
  function PathOf(c: ColumnSpec, colSep: string): (q: seq<string>)
    requires colSep != ""
    ensures |q| == 2 && q[0] == GroupOf(c, colSep)
  {
    [GroupOf(c, colSep), if NameParts(c, colSep).Some? then NameParts(c, colSep).value.suffix else ""]
  }

  ghost predicate PvSeen(data: seq<ColumnSpec>, p: string, labelSep: string)
    requires labelSep != ""
  {
    exists i :: 0 <= i < |data| && PvOf(data[i], labelSep) == p
  }

  ghost predicate GroupSeen(data: seq<ColumnSpec>, g: string, colSep: string)
    requires colSep != ""
  {
    exists i :: 0 <= i < |data| && GroupOf(data[i], colSep) == g
  }

  ghost predicate NameSeen(times: seq<ColumnSpec>, n: string) { exists i :: 0 <= i < |times| && times[i].name == n }

  /** The column splits, brings a new PV name exactly when it brings a new group, and its group is no time column. */
  ghost predicate Admitted(times: seq<ColumnSpec>, data: seq<ColumnSpec>, c: ColumnSpec, labelSep: string,
        colSep: string)
    requires labelSep != "" && colSep != ""
  {
    && Splits(c, labelSep, colSep)
    && PvSeen(data, PvOf(c, labelSep), labelSep) == GroupSeen(data, GroupOf(c, colSep), colSep)
    && !NameSeen(times, GroupOf(c, colSep))
  }

  ghost predicate Buildable(times: seq<ColumnSpec>, data: seq<ColumnSpec>, labelSep: string, colSep: string)
    requires labelSep != "" && colSep != ""
  {
    forall j :: 0 <= j < |data| ==> Admitted(times, data[..j], data[j], labelSep, colSep)
  }

  lemma BuildableSnoc(times: seq<ColumnSpec>, data: seq<ColumnSpec>, c: ColumnSpec, labelSep: string, colSep: string)
    requires labelSep != "" && colSep != ""
    ensures Buildable(times, data + [c], labelSep, colSep) ==
            (Buildable(times, data, labelSep, colSep) && Admitted(times, data, c, labelSep, colSep))
  {
    var all := data + [c];
    assert all[..|data|] == data && all[|data|] == c;
    assert forall j :: 0 <= j < |data| ==> all[..j] == data[..j] && all[j] == data[j];
    if Buildable(times, all, labelSep, colSep) {
      assert Admitted(times, all[..|data|], all[|data|], labelSep, colSep);
      forall j | 0 <= j < |data| ensures Admitted(times, data[..j], data[j], labelSep, colSep) {
        assert Admitted(times, all[..j], all[j], labelSep, colSep);
      }
    }
  }

  // ----- what stands in the file -----

  ghost predicate GroupsStand(groups: set<string>, data: seq<ColumnSpec>, colSep: string)
    requires colSep != ""
  {
    forall g :: g in groups <==> GroupSeen(data, g, colSep)
  }

  ghost predicate PvsStand(pvnames: set<string>, data: seq<ColumnSpec>, labelSep: string)
    requires labelSep != ""
  {
    forall p :: p in pvnames <==> PvSeen(data, p, labelSep)
  }

  ghost predicate PathSeen(data: seq<ColumnSpec>, q: seq<string>, colSep: string)
    requires colSep != ""
  {
    exists i :: 0 <= i < |data| && PathOf(data[i], colSep) == q
  }

  /** Time columns stand in the root group, data columns in the group of their prefix. */
  ghost predicate PathsStand(paths: set<seq<string>>, times: seq<ColumnSpec>, data: seq<ColumnSpec>, colSep: string)
    requires colSep != ""
  {
    && (forall n :: [n] in paths <==> NameSeen(times, n))
    && (forall q :: |q| != 1 ==> (q in paths <==> PathSeen(data, q, colSep)))
  }

  /** What stands in the file after the given columns. */
  ghost predicate Standing(l: Created, times: seq<ColumnSpec>, data: seq<ColumnSpec>, labelSep: string, colSep: string)
    requires labelSep != "" && colSep != ""
  {
    && GroupsStand(l.groups, data, colSep) && PvsStand(l.pvnames, data, labelSep)
    && PathsStand(l.paths, times, data, colSep)
    && (forall i :: 0 <= i < |data| ==> Splits(data[i], labelSep, colSep))
  }

  lemma {:induction false} TimeColumnsFit(times: seq<ColumnSpec>, labelSep: string, colSep: string)
    requires labelSep != "" && colSep != "" && DistinctNames(times)
    ensures TimeBuilt(times).Ok? && Standing(TimeBuilt(times).value, times, [], labelSep, colSep)
  {
    if times != [] {
      var n := |times| - 1;
      TimeColumnsFit(times[..n], labelSep, colSep);
      TimeSetGrows(TimeBuilt(times[..n]).value.paths, times[..n], times[n], colSep);
      assert times == times[..n] + [times[n]];
    }
  }

  /** The time columns can be created exactly when their names differ. */
  lemma {:induction false} TimeBuiltIff(times: seq<ColumnSpec>, labelSep: string, colSep: string)
    requires labelSep != "" && colSep != ""
    ensures TimeBuilt(times).Ok? <==> DistinctNames(times)
  {
    if times != [] {
      var before, c := times[..|times| - 1], times[|times| - 1];
      assert times == before + [c];
      TimeBuiltIff(before, labelSep, colSep);
      DistinctSnoc(before, c);
      if DistinctNames(before) {
        TimeColumnsFit(before, labelSep, colSep);
        var l := TimeBuilt(before).value;
        assert [c.name] in l.paths <==> NameSeen(before, c.name);
        assert c.name !in l.groups <==> !GroupSeen([], c.name, colSep);
      }
    }
  }

  lemma TimeSetGrows(paths: set<seq<string>>, times: seq<ColumnSpec>, c: ColumnSpec, colSep: string)
    requires colSep != "" && PathsStand(paths, times, [], colSep) && DistinctNames(times + [c])
    ensures [c.name] !in paths && PathsStand(paths + {[c.name]}, times + [c], [], colSep)
  {
    var all := times + [c];
    assert all[|times|] == c && forall i :: 0 <= i < |times| ==> all[i] == times[i];
    forall n ensures [n] in paths + {[c.name]} <==> NameSeen(all, n) {
      if n == c.name {
        assert all[|times|].name == n;
      } else {
        assert [n][0] != [c.name][0];
        NameSeenSnoc(times, c, n);
      }
    }
  }

  lemma NameSeenSnoc(times: seq<ColumnSpec>, c: ColumnSpec, n: string)
    ensures NameSeen(times + [c], n) == (NameSeen(times, n) || c.name == n)
  {
    var all := times + [c];
    assert all[|times|] == c && forall i :: 0 <= i < |times| ==> all[i] == times[i];
  }

  /** Distinct names have distinct paths. */
  lemma NewDataPath(data: seq<ColumnSpec>, c: ColumnSpec, labelSep: string, colSep: string)
    requires labelSep != "" && colSep != "" && Splits(c, labelSep, colSep)
    requires forall i :: 0 <= i < |data| ==> data[i].name != c.name && Splits(data[i], labelSep, colSep)
    ensures !PathSeen(data, PathOf(c, colSep), colSep)
  {
    if PathSeen(data, PathOf(c, colSep), colSep) {
      var i :| 0 <= i < |data| && PathOf(data[i], colSep) == PathOf(c, colSep);
      assert PathOf(data[i], colSep)[1] == PathOf(c, colSep)[1];
      SplitInjective(data[i].name, c.name, colSep);
      assert false;
    }
  }

  ghost predicate NewName(data: seq<ColumnSpec>, c: ColumnSpec) {
    forall i :: 0 <= i < |data| ==> data[i].name != c.name
  }

  /** One more column can be created exactly when it is admitted and has a new name. */
  lemma ColumnFitsIff(l: Created, times: seq<ColumnSpec>, data: seq<ColumnSpec>, c: ColumnSpec, labelSep: string,
        colSep: string)
    requires labelSep != "" && colSep != "" && Standing(l, times, data, labelSep, colSep)
    requires forall i :: 0 <= i < |data| ==> !NameSeen(times, GroupOf(data[i], colSep))
    ensures CreateDataColumn(l, c, labelSep, colSep).Ok? ==
            (Admitted(times, data, c, labelSep, colSep) && NewName(data, c))
    ensures CreateDataColumn(l, c, labelSep, colSep).Err? ==>
      CreateDataColumn(l, c, labelSep, colSep).error ==
      if Splits(c, labelSep, colSep) then StorageError else RuntimeError
  {
    if Splits(c, labelSep, colSep) {
      var p, g := PvOf(c, labelSep), GroupOf(c, colSep);
      assert p in l.pvnames <==> PvSeen(data, p, labelSep);
      assert g in l.groups <==> GroupSeen(data, g, colSep);
      assert [g] in l.paths <==> NameSeen(times, g);
      assert PathOf(c, colSep) == [g, NameParts(c, colSep).value.suffix];
      if NewName(data, c) {
        NewDataPath(data, c, labelSep, colSep);
        assert PathOf(c, colSep) !in l.paths;
      } else {
        var i :| 0 <= i < |data| && data[i].name == c.name;
        assert PathOf(data[i], colSep) == PathOf(c, colSep);
        assert PathOf(c, colSep) in l.paths;
      }
    }
  }

  lemma DistinctSnoc(data: seq<ColumnSpec>, c: ColumnSpec)
    ensures DistinctNames(data + [c]) == (DistinctNames(data) && NewName(data, c))
  {
    var all := data + [c];
    assert all[|data|] == c && forall i :: 0 <= i < |data| ==> all[i] == data[i];
  }

  lemma SeenSnoc(data: seq<ColumnSpec>, c: ColumnSpec, s: string, q: seq<string>, labelSep: string, colSep: string)
    requires labelSep != "" && colSep != ""
    ensures PvSeen(data + [c], s, labelSep) == (PvSeen(data, s, labelSep) || PvOf(c, labelSep) == s)
    ensures GroupSeen(data + [c], s, colSep) == (GroupSeen(data, s, colSep) || GroupOf(c, colSep) == s)
    ensures PathSeen(data + [c], q, colSep) == (PathSeen(data, q, colSep) || PathOf(c, colSep) == q)
  {
    var all := data + [c];
    assert all[|data|] == c && forall i :: 0 <= i < |data| ==> all[i] == data[i];
  }

  lemma GroupsGrow(groups: set<string>, data: seq<ColumnSpec>, c: ColumnSpec, labelSep: string, colSep: string)
    requires labelSep != "" && colSep != "" && GroupsStand(groups, data, colSep)
    ensures GroupsStand(groups + {GroupOf(c, colSep)}, data + [c], colSep)
  {
    forall g ensures GroupSeen(data + [c], g, colSep) == (GroupSeen(data, g, colSep) || GroupOf(c, colSep) == g) {
      SeenSnoc(data, c, g, [], labelSep, colSep);
    }
  }

  lemma PvsGrow(pvnames: set<string>, data: seq<ColumnSpec>, c: ColumnSpec, labelSep: string, colSep: string)
    requires labelSep != "" && colSep != "" && PvsStand(pvnames, data, labelSep)
    ensures PvsStand(pvnames + {PvOf(c, labelSep)}, data + [c], labelSep)
  {
    forall p ensures PvSeen(data + [c], p, labelSep) == (PvSeen(data, p, labelSep) || PvOf(c, labelSep) == p) {
      SeenSnoc(data, c, p, [], labelSep, colSep);
    }
  }

  lemma PathsGrow(paths: set<seq<string>>, times: seq<ColumnSpec>, data: seq<ColumnSpec>, c: ColumnSpec,
        labelSep: string, colSep: string)
    requires labelSep != "" && colSep != "" && PathsStand(paths, times, data, colSep)
    ensures PathsStand(paths + {PathOf(c, colSep)}, times, data + [c], colSep)
  {
    forall q: seq<string>
      ensures PathSeen(data + [c], q, colSep) == (PathSeen(data, q, colSep) || PathOf(c, colSep) == q)
    {
      SeenSnoc(data, c, "", q, labelSep, colSep);
    }
  }

  /** A created column adds exactly its group, its PV name and its path. */
  lemma ColumnAdds(l: Created, l': Created, c: ColumnSpec, labelSep: string, colSep: string)
    requires labelSep != "" && colSep != "" && CreateDataColumn(l, c, labelSep, colSep) == Ok(l')
    ensures Splits(c, labelSep, colSep)
    ensures l' == Created(l.groups + {GroupOf(c, colSep)}, l.paths + {PathOf(c, colSep)},
                          l.pvnames + {PvOf(c, labelSep)})
  {
  }

  lemma StandingGrows(l: Created, l': Created, times: seq<ColumnSpec>, data: seq<ColumnSpec>, c: ColumnSpec,
        labelSep: string, colSep: string)
    requires labelSep != "" && colSep != "" && Standing(l, times, data, labelSep, colSep)
    requires CreateDataColumn(l, c, labelSep, colSep) == Ok(l')
    ensures Standing(l', times, data + [c], labelSep, colSep)
  {
    ColumnAdds(l, l', c, labelSep, colSep);
    GroupsGrow(l.groups, data, c, labelSep, colSep);
    PvsGrow(l.pvnames, data, c, labelSep, colSep);
    PathsGrow(l.paths, times, data, c, labelSep, colSep);
  }

  /**
   * The structure can be built exactly when the names of the time columns
   * differ, and those of the data columns, every label and every name has its
   * separator, a column introduces a new PV name exactly when it introduces a
   * new column prefix, and no prefix is the name of a time column. So each group
   * is created once, before its first use.
   */
  lemma {:induction false} BuildSucceedsIff(times: seq<ColumnSpec>, data: seq<ColumnSpec>, labelSep: string,
        colSep: string)
    requires labelSep != "" && colSep != ""
    ensures Built(times, data, labelSep, colSep).Ok? ==
            (DistinctNames(times) && Buildable(times, data, labelSep, colSep) && DistinctNames(data))
    ensures Built(times, data, labelSep, colSep).Ok? ==>
      Standing(Built(times, data, labelSep, colSep).value, times, data, labelSep, colSep)
  {
    TimeBuiltIff(times, labelSep, colSep);
    if DistinctNames(times) {
      DataBuildsIff(times, data, labelSep, colSep);
    } else {
      assert times[..|times|] == times;
      TimeFailureStays(times, |times|, data, labelSep, colSep);
    }
  }

  lemma {:induction false} DataBuildsIff(times: seq<ColumnSpec>, data: seq<ColumnSpec>, labelSep: string,
        colSep: string)
    requires labelSep != "" && colSep != "" && DistinctNames(times)
    ensures Built(times, data, labelSep, colSep).Ok? ==
            (Buildable(times, data, labelSep, colSep) && DistinctNames(data))
    ensures Built(times, data, labelSep, colSep).Ok? ==>
      Standing(Built(times, data, labelSep, colSep).value, times, data, labelSep, colSep)
  {
    if data == [] {
      TimeColumnsFit(times, labelSep, colSep);
    } else {
      var before, c := data[..|data| - 1], data[|data| - 1];
      DataBuildsIff(times, before, labelSep, colSep);
      BuildableSnoc(times, before, c, labelSep, colSep);
      DistinctSnoc(before, c);
      assert data == before + [c];
      var r := Built(times, before, labelSep, colSep);
      if r.Ok? {
        NoGroupIsTimeColumn(times, before, labelSep, colSep);
        ColumnFitsIff(r.value, times, before, c, labelSep, colSep);
        if CreateDataColumn(r.value, c, labelSep, colSep).Ok? {
          StandingGrows(r.value, CreateDataColumn(r.value, c, labelSep, colSep).value, times, before, c, labelSep,
            colSep);
        }
      }
    }
  }

  lemma NoGroupIsTimeColumn(times: seq<ColumnSpec>, data: seq<ColumnSpec>, labelSep: string, colSep: string)
    requires labelSep != "" && colSep != "" && Buildable(times, data, labelSep, colSep)
    ensures forall i :: 0 <= i < |data| ==> !NameSeen(times, GroupOf(data[i], colSep))
  {
    forall i | 0 <= i < |data| ensures !NameSeen(times, GroupOf(data[i], colSep)) {
      assert Admitted(times, data[..i], data[i], labelSep, colSep);
    }
  }
}
