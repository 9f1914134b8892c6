/** The writer's view of the columns the merger generates: they all split, and where they are stored. */
module MergerToWriter {
  import opened Results
  import opened TimeTables
  import opened RowQueues
  import opened Naming
  import opened NameOrder
  import opened Splitting
  import opened Separators
  import opened FileStructure

  // ----- positions in flattened sequences -----

  lemma {:induction false} Locate<T>(ss: seq<seq<T>>, j: nat) returns (o: nat, i: nat)
    requires j < |Flatten(ss)|
    ensures o < |ss| && i < |ss[o]| && j == Offset(ss, o) + i && Flatten(ss)[j] == ss[o][i]
  {
    if j < |ss[0]| {
      o, i := 0, j;
    } else {
      o, i := Locate(ss[1..], j - |ss[0]|);
      o := o + 1;
    }
  }

  lemma {:induction false} OffsetsAscend<T>(ss: seq<seq<T>>, o: nat, p: nat)
    requires o < p <= |ss|
    ensures Offset(ss, o) + |ss[o]| <= Offset(ss, p)
  {
    if o == 0 {
      assert Offset(ss, p) == |ss[0]| + Offset(ss[1..], p - 1);
    } else {
      OffsetsAscend(ss[1..], o - 1, p - 1);
    }
  }

  // ----- the merged table -----

  /** What one input contributes before prefixing. */
  function Items(specs: seq<ColumnSpec>): seq<ColumnSpec> { [VALID] + specs }

  /** The column prefixes, followed by the separator, do not begin one another. */
  ghost predicate CleanPrefixes(names: seq<string>, specs: seq<seq<ColumnSpec>>, c: Separator) {
    |names| == |specs| && AllApart(Prefixes(|names|), c)
  }

  /** Nor do the PV names, which are sorted. */
  ghost predicate CleanNames(names: seq<string>, specs: seq<seq<ColumnSpec>>, l: Separator, c: Separator) {
    CleanPrefixes(names, specs, c) && SortedNames(names) && AllApart(names, l)
  }

  /** No input has two columns of one name, counting the flag column "valid". */
  ghost predicate AllItemsDistinct(specs: seq<seq<ColumnSpec>>) {
    forall b :: 0 <= b < |specs| ==> DistinctNames(Items(specs[b]))
  }

  /** PV name and group of a merged column, in terms of the input it comes from. */
  lemma WhereStored(names: seq<string>, specs: seq<seq<ColumnSpec>>, l: Separator, c: Separator, b: nat, i: nat)
    requires |names| == |specs| && b < |names| && i < |Items(specs[b])|
    ensures var col, item := Pieces(names, specs, l, c)[b][i], Items(specs[b])[i];
      && LabelParts(col, l).Some? && NameParts(col, c).Some?
      && PvOf(col, l) == names[b] + Joint(item.labelText, l).prefix
      && GroupOf(col, c) == ColPrefix(b, |names|) + Joint(item.name, c).prefix
      && NameParts(col, c).value.suffix == Joint(item.name, c).suffix
      && col.name == ColPrefix(b, |names|) + c + item.name
  {
    var item := Items(specs[b])[i];
    SplitJoined(names[b], l, item.labelText);
    SplitJoined(ColPrefix(b, |names|), c, item.name);
  }

  /** What the writer stores a column under: the PV name, or the group. */
  function Key(col: ColumnSpec, l: Separator, c: Separator, pv: bool): string {
    if pv then PvOf(col, l) else GroupOf(col, c)
  }

  /** What decides the key of a column within its input. */
  function ItemHead(item: ColumnSpec, l: Separator, c: Separator, pv: bool): string {
    if pv then Joint(item.labelText, l).prefix else Joint(item.name, c).prefix
  }

  lemma ItemHeadRepeats(item: ColumnSpec, l: Separator, c: Separator, pv: bool)
    ensures var sep := if pv then l else c; sep <= ItemHead(item, l, c, pv) + sep
  {
    if pv { HeadRepeats(item.labelText, l); } else { HeadRepeats(item.name, c); }
  }

  /** No earlier column has the key of column j. */
  ghost predicate FirstOfKey(data: seq<ColumnSpec>, j: nat, l: Separator, c: Separator, pv: bool)
    requires j < |data|
  {
    forall k :: 0 <= k < j ==> Key(data[k], l, c, pv) != Key(data[j], l, c, pv)
  }

  /** No earlier column of the input has the head of column i. */
  ghost predicate FirstOfHead(items: seq<ColumnSpec>, i: nat, l: Separator, c: Separator, pv: bool)
    requires i < |items|
  {
    forall k :: 0 <= k < i ==> ItemHead(items[k], l, c, pv) != ItemHead(items[i], l, c, pv)
  }

  /** Columns of different inputs have different names. */
  lemma NamesApart(names: seq<string>, specs: seq<seq<ColumnSpec>>, l: Separator, c: Separator, o: nat, i: nat,
        p: nat, k: nat)
    requires CleanPrefixes(names, specs, c) && o < |names| && p < |names| && o != p
    requires i < |Items(specs[o])| && k < |Items(specs[p])|
    ensures Pieces(names, specs, l, c)[o][i].name != Pieces(names, specs, l, c)[p][k].name
  {
    var x, y := Items(specs[o])[i].name, Items(specs[p])[k].name;
    WhereStored(names, specs, l, c, o, i);
    WhereStored(names, specs, l, c, p, k);
    PrefixesDiffer(|names|, c, o, p);
    ApartIff(ColPrefix(o, |names|), ColPrefix(p, |names|), c);
    assert ColPrefix(o, |names|) + c + x != ColPrefix(p, |names|) + c + y;
  }

  lemma PrefixesDiffer(n: nat, c: Separator, o: nat, p: nat)
    requires AllApart(Prefixes(n), c) && o < n && p < n && o != p
    ensures ColPrefix(o, n) != ColPrefix(p, n) && Apart(ColPrefix(o, n), ColPrefix(p, n), c)
  {
    assert Apart(Prefixes(n)[o], Prefixes(n)[p], c);
    if ColPrefix(o, n) == ColPrefix(p, n) { ColPrefixInjective(o, p, n); }
  }

  /** What keeps keys of different inputs apart: for groups the prefixes do, for PV names the names must. */
  ghost predicate KeysApart(names: seq<string>, specs: seq<seq<ColumnSpec>>, l: Separator, c: Separator, pv: bool) {
    if pv then CleanNames(names, specs, l, c) else CleanPrefixes(names, specs, c)
  }

  /** Columns of different inputs have different keys. */
  lemma KeysDiffer(names: seq<string>, specs: seq<seq<ColumnSpec>>, l: Separator, c: Separator, pv: bool, o: nat,
        i: nat, p: nat, k: nat)
    requires KeysApart(names, specs, l, c, pv) && o < |names| && p < |names| && o != p
    requires i < |Items(specs[o])| && k < |Items(specs[p])|
    ensures Key(Pieces(names, specs, l, c)[o][i], l, c, pv) != Key(Pieces(names, specs, l, c)[p][k], l, c, pv)
  {
    var x, y := Items(specs[o])[i], Items(specs[p])[k];
    WhereStored(names, specs, l, c, o, i);
    WhereStored(names, specs, l, c, p, k);
    PrefixesDiffer(|names|, c, o, p);
    if pv {
      SortedDistinct(names, o, p);
      assert Apart(names[o], names[p], l);
      HeadsApart(names[o], names[p], x, y, l, c, true);
    } else {
      HeadsApart(ColPrefix(o, |names|), ColPrefix(p, |names|), x, y, l, c, false);
    }
  }

  /** Columns of different inputs have different PV names and groups as well. */
  lemma ColumnsApart(names: seq<string>, specs: seq<seq<ColumnSpec>>, l: Separator, c: Separator, o: nat, i: nat,
        p: nat, k: nat)
    requires CleanNames(names, specs, l, c) && o < |names| && p < |names| && o != p
    requires i < |Items(specs[o])| && k < |Items(specs[p])|
    ensures var a, b := Pieces(names, specs, l, c)[o][i], Pieces(names, specs, l, c)[p][k];
      PvOf(a, l) != PvOf(b, l) && GroupOf(a, c) != GroupOf(b, c) && a.name != b.name
  {
    NamesApart(names, specs, l, c, o, i, p, k);
    KeysDiffer(names, specs, l, c, true, o, i, p, k);
    KeysDiffer(names, specs, l, c, false, o, i, p, k);
  }

  lemma HeadsApart(p: string, p': string, x: ColumnSpec, y: ColumnSpec, l: Separator, c: Separator, pv: bool)
    requires p != p' && Apart(p, p', if pv then l else c)
    ensures p + ItemHead(x, l, c, pv) != p' + ItemHead(y, l, c, pv)
  {
    ItemHeadRepeats(x, l, c, pv);
    ItemHeadRepeats(y, l, c, pv);
    if p + ItemHead(x, l, c, pv) == p' + ItemHead(y, l, c, pv) {
      JoinedApart(p, p', if pv then l else c, ItemHead(x, l, c, pv), ItemHead(y, l, c, pv));
      assert false;
    }
  }

  lemma DataOfLayout(names: seq<string>, specs: seq<seq<ColumnSpec>>, l: Separator, c: Separator)
    requires |names| == |specs|
    ensures var columns := Layout(names, specs, l, c);
      && |columns| >= NUM_TIME_COLS && TimeColumns(columns) == TIME_COLUMNS
      && DataColumns(columns) == Flatten(Pieces(names, specs, l, c))
  {
  }

  lemma SameBehind(p: string, x: string, y: string)
    ensures p + x == p + y <==> x == y
  {
    assert (p + x)[|p|..] == x && (p + y)[|p|..] == y;
  }

  /** Two columns of one input have the same merged name exactly when they have the same name. */
  lemma SameNameIff(names: seq<string>, specs: seq<seq<ColumnSpec>>, l: Separator, c: Separator, b: nat, k: nat, i: nat)
    requires |names| == |specs| && b < |names| && k < |Items(specs[b])| && i < |Items(specs[b])|
    ensures Pieces(names, specs, l, c)[b][k].name == Pieces(names, specs, l, c)[b][i].name <==>
            Items(specs[b])[k].name == Items(specs[b])[i].name
  {
    WhereStored(names, specs, l, c, b, k);
    WhereStored(names, specs, l, c, b, i);
    SameBehind(ColPrefix(b, |names|) + c, Items(specs[b])[k].name, Items(specs[b])[i].name);
  }

  /** The merged data columns have different names exactly when the columns of each input have. */
  lemma DataNamesDistinctIff(names: seq<string>, specs: seq<seq<ColumnSpec>>, l: Separator, c: Separator)
    requires CleanPrefixes(names, specs, c)
    ensures DistinctNames(Flatten(Pieces(names, specs, l, c))) <==> AllItemsDistinct(specs)
  {
    var pieces := Pieces(names, specs, l, c);
    var data := Flatten(pieces);
    if AllItemsDistinct(specs) {
      forall i, j | 0 <= i < j < |data| ensures data[i].name != data[j].name {
        DataNamesDiffer(names, specs, l, c, i, j);
      }
    }
    if DistinctNames(data) {
      forall b, k, i | 0 <= b < |specs| && 0 <= k < i < |Items(specs[b])|
        ensures Items(specs[b])[k].name != Items(specs[b])[i].name
      {
        FlattenAt(pieces, b, k);
        FlattenAt(pieces, b, i);
        SameNameIff(names, specs, l, c, b, k, i);
      }
    }
  }

  lemma DataNamesDiffer(names: seq<string>, specs: seq<seq<ColumnSpec>>, l: Separator, c: Separator, i: nat, j: nat)
    requires CleanPrefixes(names, specs, c) && AllItemsDistinct(specs)
    requires i < j < |Flatten(Pieces(names, specs, l, c))|
    ensures Flatten(Pieces(names, specs, l, c))[i].name != Flatten(Pieces(names, specs, l, c))[j].name
  {
    var pieces := Pieces(names, specs, l, c);
    var o, m := Locate(pieces, i);
    var p, k := Locate(pieces, j);
    if o != p {
      NamesApart(names, specs, l, c, o, m, p, k);
    } else {
      SameNameIff(names, specs, l, c, o, m, k);
      assert DistinctNames(Items(specs[o]));
    }
  }

  lemma NotATimeColumn(names: seq<string>, specs: seq<seq<ColumnSpec>>, l: Separator, c: Separator, t: nat, j: nat)
    requires |names| == |specs| && t < NUM_TIME_COLS && j < |Flatten(Pieces(names, specs, l, c))|
    ensures var col := Flatten(Pieces(names, specs, l, c))[j];
      TIME_COLUMNS[t].name != col.name && TIME_COLUMNS[t].name != GroupOf(col, c)
  {
    var pieces := Pieces(names, specs, l, c);
    var o, i := Locate(pieces, j);
    WhereStored(names, specs, l, c, o, i);
    ColPrefixStart(o, |names|);
    assert TIME_COLUMNS[t].name[0] != 't';
  }

  lemma DistinctBehind(times: seq<ColumnSpec>, data: seq<ColumnSpec>)
    requires DistinctNames(times)
    requires forall t, j :: 0 <= t < |times| && 0 <= j < |data| ==> times[t].name != data[j].name
    ensures DistinctNames(times + data) <==> DistinctNames(data)
  {
    var all := times + data;
    assert forall j :: 0 <= j < |data| ==> data[j] == all[|times| + j];
  }

  /** The names of the merged table differ exactly when those of each input do, counting its flag column. */
  lemma LayoutNamesDistinctIff(names: seq<string>, specs: seq<seq<ColumnSpec>>, l: Separator, c: Separator)
    requires CleanPrefixes(names, specs, c)
    ensures DistinctNames(Layout(names, specs, l, c)) <==> AllItemsDistinct(specs)
  {
    var data := Flatten(Pieces(names, specs, l, c));
    DataNamesDistinctIff(names, specs, l, c);
    forall t, j | 0 <= t < NUM_TIME_COLS && 0 <= j < |data| ensures TIME_COLUMNS[t].name != data[j].name {
      NotATimeColumn(names, specs, l, c, t, j);
    }
    DistinctBehind(TIME_COLUMNS, data);
    LayoutIs(names, specs, l, c);
  }

  lemma LayoutIs(names: seq<string>, specs: seq<seq<ColumnSpec>>, l: Separator, c: Separator)
    requires |names| == |specs|
    ensures Layout(names, specs, l, c) == TIME_COLUMNS + Flatten(Pieces(names, specs, l, c))
  {
  }

  /** Among the columns of one input, a new label head comes exactly with a new name head. */
  ghost predicate Paired(items: seq<ColumnSpec>, l: Separator, c: Separator) {
    forall i :: 0 <= i < |items| ==> (FirstOfHead(items, i, l, c, true) <==> FirstOfHead(items, i, l, c, false))
  }

  /** Columns of one input have the same key exactly when they have the same head. */
  lemma SameKeyIff(names: seq<string>, specs: seq<seq<ColumnSpec>>, l: Separator, c: Separator, pv: bool, b: nat,
        k: nat, i: nat)
    requires |names| == |specs| && b < |names| && k < |Items(specs[b])| && i < |Items(specs[b])|
    ensures var piece, items := Pieces(names, specs, l, c)[b], Items(specs[b]);
      Key(piece[k], l, c, pv) == Key(piece[i], l, c, pv) <==>
      ItemHead(items[k], l, c, pv) == ItemHead(items[i], l, c, pv)
  {
    var items := Items(specs[b]);
    WhereStored(names, specs, l, c, b, k);
    WhereStored(names, specs, l, c, b, i);
    SameBehind(if pv then names[b] else ColPrefix(b, |names|), ItemHead(items[k], l, c, pv),
      ItemHead(items[i], l, c, pv));
  }

  /** An earlier merged column with the same key is an earlier column of the same input with the same head. */
  lemma EarlierWithKey(names: seq<string>, specs: seq<seq<ColumnSpec>>, l: Separator, c: Separator, pv: bool, b: nat,
        i: nat, j: nat) returns (k: nat)
    requires KeysApart(names, specs, l, c, pv) && b < |names| && i < |Items(specs[b])|
    requires j < Offset(Pieces(names, specs, l, c), b) + i
    requires j < |Flatten(Pieces(names, specs, l, c))|
    requires Key(Flatten(Pieces(names, specs, l, c))[j], l, c, pv) ==
             Key(Pieces(names, specs, l, c)[b][i], l, c, pv)
    ensures k < i && ItemHead(Items(specs[b])[k], l, c, pv) == ItemHead(Items(specs[b])[i], l, c, pv)
  {
    var pieces := Pieces(names, specs, l, c);
    var p, m := Locate(pieces, j);
    if p != b {
      KeysDiffer(names, specs, l, c, pv, p, m, b, i);
      assert false;
    }
    SameKeyIff(names, specs, l, c, pv, b, m, i);
    k := m;
  }

  lemma {:induction false} FirstInInput(names: seq<string>, specs: seq<seq<ColumnSpec>>, l: Separator, c: Separator,
        pv: bool, b: nat, i: nat, j: nat)
    requires KeysApart(names, specs, l, c, pv) && b < |names| && i < |Items(specs[b])|
    requires j == Offset(Pieces(names, specs, l, c), b) + i < |Flatten(Pieces(names, specs, l, c))|
    requires Flatten(Pieces(names, specs, l, c))[j] == Pieces(names, specs, l, c)[b][i]
    requires FirstOfHead(Items(specs[b]), i, l, c, pv)
    ensures FirstOfKey(Flatten(Pieces(names, specs, l, c)), j, l, c, pv)
  {
    var data := Flatten(Pieces(names, specs, l, c));
    forall k | 0 <= k < j ensures Key(data[k], l, c, pv) != Key(data[j], l, c, pv) {
      if Key(data[k], l, c, pv) == Key(data[j], l, c, pv) {
        var m := EarlierWithKey(names, specs, l, c, pv, b, i, k);
        assert false;
      }
    }
  }

  /** Being the first merged column of its PV name, or group, is decided within the input. */
  lemma {:induction false} FirstIsLocal(names: seq<string>, specs: seq<seq<ColumnSpec>>, l: Separator, c: Separator,
        pv: bool, b: nat, i: nat, j: nat)
    requires KeysApart(names, specs, l, c, pv) && b < |names| && i < |Items(specs[b])|
    requires j == Offset(Pieces(names, specs, l, c), b) + i
    ensures j < |Flatten(Pieces(names, specs, l, c))|
    ensures FirstOfKey(Flatten(Pieces(names, specs, l, c)), j, l, c, pv) ==
            FirstOfHead(Items(specs[b]), i, l, c, pv)
  {
    var pieces, items := Pieces(names, specs, l, c), Items(specs[b]);
    FlattenAt(pieces, b, i);
    if FirstOfHead(items, i, l, c, pv) {
      FirstInInput(names, specs, l, c, pv, b, i, j);
    } else {
      var k :| 0 <= k < i && ItemHead(items[k], l, c, pv) == ItemHead(items[i], l, c, pv);
      FlattenAt(pieces, b, k);
      SameKeyIff(names, specs, l, c, pv, b, k, i);
    }
  }

  /** What decides the PV name of column i of input b. */
  function PvHead(names: seq<string>, specs: seq<seq<ColumnSpec>>, l: Separator, b: nat, i: nat): string
    requires b < |names| == |specs| && i < |Items(specs[b])|
  {
    names[b] + Joint(Items(specs[b])[i].labelText, l).prefix
  }

  /** No earlier column of any input is stored under the PV name of column i of input b. */
  ghost predicate FirstOfPv(names: seq<string>, specs: seq<seq<ColumnSpec>>, l: Separator, b: nat, i: nat)
    requires b < |names| == |specs| && i < |Items(specs[b])|
  {
    forall p, k :: 0 <= p <= b && 0 <= k < |Items(specs[p])| && (p == b ==> k < i) ==>
      PvHead(names, specs, l, p, k) != PvHead(names, specs, l, b, i)
  }

  /** Input and column number order the merged columns. */
  lemma {:induction false} OffsetsOrder<T>(ss: seq<seq<T>>, p: nat, k: nat, b: nat, i: nat)
    requires p < |ss| && k < |ss[p]| && b < |ss| && i < |ss[b]|
    ensures Offset(ss, p) + k < Offset(ss, b) + i <==> p < b || (p == b && k < i)
  {
    if p < b { OffsetsAscend(ss, p, b); }
    if b < p { OffsetsAscend(ss, b, p); }
  }

  /** Where column i of input b stands in the merged table, and under which PV name it is stored. */
  lemma {:induction false} PvKeyAt(names: seq<string>, specs: seq<seq<ColumnSpec>>, l: Separator, c: Separator,
        b: nat, i: nat, j: nat)
    requires |names| == |specs| && b < |names| && i < |Items(specs[b])|
    requires j == Offset(Pieces(names, specs, l, c), b) + i
    ensures j < |Flatten(Pieces(names, specs, l, c))|
    ensures Key(Flatten(Pieces(names, specs, l, c))[j], l, c, true) == PvHead(names, specs, l, b, i)
  {
    FlattenAt(Pieces(names, specs, l, c), b, i);
    PvKeyOf(names, specs, l, c, b, i, Flatten(Pieces(names, specs, l, c))[j]);
  }

  lemma PvKeyOf(names: seq<string>, specs: seq<seq<ColumnSpec>>, l: Separator, c: Separator, b: nat, i: nat,
        col: ColumnSpec)
    requires |names| == |specs| && b < |names| && i < |Items(specs[b])| && col == Pieces(names, specs, l, c)[b][i]
    ensures Key(col, l, c, true) == PvHead(names, specs, l, b, i)
  {
    WhereStored(names, specs, l, c, b, i);
  }

  lemma {:induction false} FirstOfPvIff(names: seq<string>, specs: seq<seq<ColumnSpec>>, l: Separator, c: Separator,
        b: nat, i: nat, j: nat)
    requires |names| == |specs| && b < |names| && i < |Items(specs[b])|
    requires j == Offset(Pieces(names, specs, l, c), b) + i
    ensures j < |Flatten(Pieces(names, specs, l, c))|
    ensures FirstOfKey(Flatten(Pieces(names, specs, l, c)), j, l, c, true) == FirstOfPv(names, specs, l, b, i)
  {
    PvKeyAt(names, specs, l, c, b, i, j);
    if FirstOfPv(names, specs, l, b, i) { FirstInTable(names, specs, l, c, b, i, j); }
    if FirstOfKey(Flatten(Pieces(names, specs, l, c)), j, l, c, true) {
      FirstInInputs(names, specs, l, c, b, i, j, Flatten(Pieces(names, specs, l, c)));
    }
  }

  lemma {:induction false} FirstInTable(names: seq<string>, specs: seq<seq<ColumnSpec>>, l: Separator, c: Separator,
        b: nat, i: nat, j: nat)
    requires |names| == |specs| && b < |names| && i < |Items(specs[b])| && FirstOfPv(names, specs, l, b, i)
    requires j == Offset(Pieces(names, specs, l, c), b) + i < |Flatten(Pieces(names, specs, l, c))|
    ensures FirstOfKey(Flatten(Pieces(names, specs, l, c)), j, l, c, true)
  {
    var pieces := Pieces(names, specs, l, c);
    PvKeyAt(names, specs, l, c, b, i, j);
    forall m | 0 <= m < j ensures Key(Flatten(pieces)[m], l, c, true) != Key(Flatten(pieces)[j], l, c, true) {
      var p, k := Locate(pieces, m);
      OffsetsOrder(pieces, p, k, b, i);
      PvKeyAt(names, specs, l, c, p, k, m);
      assert PvHead(names, specs, l, p, k) != PvHead(names, specs, l, b, i);
    }
  }

  lemma {:induction false} FirstInInputs(names: seq<string>, specs: seq<seq<ColumnSpec>>, l: Separator, c: Separator,
        b: nat, i: nat, j: nat, data: seq<ColumnSpec>)
    requires |names| == |specs| && b < |names| && i < |Items(specs[b])| && data == Flatten(Pieces(names, specs, l, c))
    requires j == Offset(Pieces(names, specs, l, c), b) + i < |data| && FirstOfKey(data, j, l, c, true)
    ensures FirstOfPv(names, specs, l, b, i)
  {
    PvKeyAt(names, specs, l, c, b, i, j);
    forall p, k | 0 <= p <= b && 0 <= k < |Items(specs[p])| && (p == b ==> k < i)
      ensures PvHead(names, specs, l, p, k) != PvHead(names, specs, l, b, i)
    {
      var m := Offset(Pieces(names, specs, l, c), p) + k;
      OffsetsOrder(Pieces(names, specs, l, c), p, k, b, i);
      PvKeyAt(names, specs, l, c, p, k, m);
      assert Key(data[m], l, c, true) != Key(data[j], l, c, true);
    }
  }

  lemma SeenUnlessFirst(data: seq<ColumnSpec>, l: Separator, c: Separator, j: nat)
    requires j < |data|
    ensures PvSeen(data[..j], PvOf(data[j], l), l) == !FirstOfKey(data, j, l, c, true)
    ensures GroupSeen(data[..j], GroupOf(data[j], c), c) == !FirstOfKey(data, j, l, c, false)
  {
    forall i | 0 <= i <= j
      ensures Key(data[i], l, c, true) == PvOf(data[i], l) && Key(data[i], l, c, false) == GroupOf(data[i], c)
      ensures i < j ==> data[..j][i] == data[i]
    {
    }
  }

  /**
   * The merged column at j, column i of input b, is admitted exactly when its
   * PV name and its name head within the input are both new or both known.
   */
  lemma {:induction false} AdmittedIff(names: seq<string>, specs: seq<seq<ColumnSpec>>, l: Separator, c: Separator,
        b: nat, i: nat, j: nat)
    requires CleanPrefixes(names, specs, c) && b < |names| && i < |Items(specs[b])|
    requires j == Offset(Pieces(names, specs, l, c), b) + i
    ensures j < |Flatten(Pieces(names, specs, l, c))|
    ensures Admitted(TIME_COLUMNS, Flatten(Pieces(names, specs, l, c))[..j],
                     Flatten(Pieces(names, specs, l, c))[j], l, c)
            == (FirstOfPv(names, specs, l, b, i) == FirstOfHead(Items(specs[b]), i, l, c, false))
  {
    FirstOfPvIff(names, specs, l, c, b, i, j);
    FirstIsLocal(names, specs, l, c, false, b, i, j);
    SeenUnlessFirst(Flatten(Pieces(names, specs, l, c)), l, c, j);
    StoredApartFromTime(names, specs, l, c, j);
  }

  lemma StoredApartFromTime(names: seq<string>, specs: seq<seq<ColumnSpec>>, l: Separator, c: Separator, j: nat)
    requires |names| == |specs| && j < |Flatten(Pieces(names, specs, l, c))|
    ensures Splits(Flatten(Pieces(names, specs, l, c))[j], l, c)
    ensures !NameSeen(TIME_COLUMNS, GroupOf(Flatten(Pieces(names, specs, l, c))[j], c))
  {
    var b, i := Locate(Pieces(names, specs, l, c), j);
    WhereStored(names, specs, l, c, b, i);
    forall t | 0 <= t < |TIME_COLUMNS|
      ensures TIME_COLUMNS[t].name != GroupOf(Flatten(Pieces(names, specs, l, c))[j], c)
    {
      NotATimeColumn(names, specs, l, c, t, j);
    }
  }

  /** A column brings a new PV name exactly when it brings a new name head within its input. */
  ghost predicate InStep(names: seq<string>, specs: seq<seq<ColumnSpec>>, l: Separator, c: Separator, b: nat, i: nat)
    requires b < |names| == |specs| && i < |Items(specs[b])|
  {
    FirstOfPv(names, specs, l, b, i) == FirstOfHead(Items(specs[b]), i, l, c, false)
  }

  ghost predicate AllInStep(names: seq<string>, specs: seq<seq<ColumnSpec>>, l: Separator, c: Separator) {
    && |names| == |specs|
    && forall b, i :: 0 <= b < |specs| && 0 <= i < |Items(specs[b])| ==> InStep(names, specs, l, c, b, i)
  }

  lemma BuildableIffInStep(names: seq<string>, specs: seq<seq<ColumnSpec>>, l: Separator, c: Separator)
    requires CleanPrefixes(names, specs, c)
    ensures Buildable(TIME_COLUMNS, Flatten(Pieces(names, specs, l, c)), l, c) == AllInStep(names, specs, l, c)
  {
    var pieces := Pieces(names, specs, l, c);
    var data := Flatten(pieces);
    if AllInStep(names, specs, l, c) {
      forall j | 0 <= j < |data| ensures Admitted(TIME_COLUMNS, data[..j], data[j], l, c) {
        var b, i := Locate(pieces, j);
        AdmittedIff(names, specs, l, c, b, i, j);
        assert InStep(names, specs, l, c, b, i);
      }
    }
    if Buildable(TIME_COLUMNS, data, l, c) {
      forall b, i | 0 <= b < |specs| && 0 <= i < |Items(specs[b])| ensures InStep(names, specs, l, c, b, i) {
        AdmittedIff(names, specs, l, c, b, i, Offset(pieces, b) + i);
      }
    }
  }

  /**
   * Whatever the PVs and columns are called, the writer can store a merged
   * table exactly when the columns of every input have different names, "valid"
   * among them, and every column is the first of all inputs with its PV name if
   * and only if it is the first of its input with its name head. Every merged
   * column splits.
   */
  lemma {:induction false} MergedTableBuildsIff(names: seq<string>, specs: seq<seq<ColumnSpec>>, l: Separator,
        c: Separator)
    requires CleanPrefixes(names, specs, c)
    ensures forall j :: 0 <= j < |DataColumns(Layout(names, specs, l, c))| ==>
      Splits(DataColumns(Layout(names, specs, l, c))[j], l, c)
    ensures Built(TimeColumns(Layout(names, specs, l, c)), DataColumns(Layout(names, specs, l, c)),
                  l, c).Ok?
            == (AllInStep(names, specs, l, c) && AllItemsDistinct(specs))
  {
    var data := Flatten(Pieces(names, specs, l, c));
    DataOfLayout(names, specs, l, c);
    forall j | 0 <= j < |data| ensures Splits(data[j], l, c) {
      StoredApartFromTime(names, specs, l, c, j);
    }
    DataNamesDistinctIff(names, specs, l, c);
    BuildSucceedsIff(TIME_COLUMNS, data, l, c);
    BuildableIffInStep(names, specs, l, c);
  }

  ghost predicate AllPaired(specs: seq<seq<ColumnSpec>>, l: Separator, c: Separator) {
    forall b :: 0 <= b < |specs| ==> Paired(Items(specs[b]), l, c)
  }

  /** Where the PV names are apart, each input decides for itself. */
  lemma {:induction false} InStepIffPaired(names: seq<string>, specs: seq<seq<ColumnSpec>>, l: Separator, c: Separator)
    requires CleanNames(names, specs, l, c)
    ensures AllInStep(names, specs, l, c) <==> AllPaired(specs, l, c)
  {
    forall b, i | 0 <= b < |specs| && 0 <= i < |Items(specs[b])|
      ensures InStep(names, specs, l, c, b, i) ==
              (FirstOfHead(Items(specs[b]), i, l, c, true) == FirstOfHead(Items(specs[b]), i, l, c, false))
    {
      FirstOfPvIff(names, specs, l, c, b, i, Offset(Pieces(names, specs, l, c), b) + i);
      FirstIsLocal(names, specs, l, c, true, b, i, Offset(Pieces(names, specs, l, c), b) + i);
    }
    if AllInStep(names, specs, l, c) {
      forall b | 0 <= b < |specs| ensures Paired(Items(specs[b]), l, c) {
        assert forall i :: 0 <= i < |Items(specs[b])| ==> InStep(names, specs, l, c, b, i);
      }
    }
    if AllPaired(specs, l, c) {
      forall b, i | 0 <= b < |specs| && 0 <= i < |Items(specs[b])| ensures InStep(names, specs, l, c, b, i) {
        assert Paired(Items(specs[b]), l, c);
      }
    }
  }

  /** So for PV names that are apart: within every input label heads and name heads begin together. */
  lemma {:induction false} ApartNamesBuildIff(names: seq<string>, specs: seq<seq<ColumnSpec>>, l: Separator,
        c: Separator)
    requires CleanNames(names, specs, l, c)
    ensures Built(TimeColumns(Layout(names, specs, l, c)), DataColumns(Layout(names, specs, l, c)),
                  l, c).Ok?
            == (AllPaired(specs, l, c) && AllItemsDistinct(specs))
  {
    MergedTableBuildsIff(names, specs, l, c);
    InStepIffPaired(names, specs, l, c);
  }

  /** Within its labels and names no separator occurs again. */
  ghost predicate PlainItems(items: seq<ColumnSpec>, l: Separator, c: Separator) {
    forall i :: 0 <= i < |items| ==> OnceIn(items[i].labelText, l) && OnceIn(items[i].name, c)
  }

  lemma {:induction false} PlainHead(items: seq<ColumnSpec>, l: Separator, c: Separator, i: nat)
    requires PlainItems(items, l, c) && i < |items|
    ensures ItemHead(items[i], l, c, true) == "" && ItemHead(items[i], l, c, false) == ""
    ensures Joint(items[i].name, c).suffix == c[1..] + items[i].name
  {
    JointOnce(items[i].labelText, l);
    JointOnce(items[i].name, c);
  }

  /** A plain column brings a new PV name, and a new name head, only as the first of its input. */
  lemma {:induction false} PlainInStep(names: seq<string>, specs: seq<seq<ColumnSpec>>, l: Separator, c: Separator,
        b: nat, i: nat)
    requires |names| == |specs| && SortedNames(names) && b < |specs| && i < |Items(specs[b])|
    requires forall p :: 0 <= p < |specs| ==> PlainItems(Items(specs[p]), l, c)
    ensures InStep(names, specs, l, c, b, i)
  {
    PlainPvHead(names, specs, l, c, b, i);
    if i > 0 {
      PlainPvHead(names, specs, l, c, b, 0);
      PlainHead(Items(specs[b]), l, c, i);
      PlainHead(Items(specs[b]), l, c, 0);
      assert ItemHead(Items(specs[b])[0], l, c, false) == ItemHead(Items(specs[b])[i], l, c, false);
      assert PvHead(names, specs, l, b, 0) == PvHead(names, specs, l, b, i);
    } else {
      forall p, k | 0 <= p < b && 0 <= k < |Items(specs[p])|
        ensures PvHead(names, specs, l, p, k) != PvHead(names, specs, l, b, i)
      {
        PlainPvHead(names, specs, l, c, p, k);
        SortedDistinct(names, p, b);
      }
    }
  }

  lemma {:induction false} PlainPvHead(names: seq<string>, specs: seq<seq<ColumnSpec>>, l: Separator, c: Separator,
        b: nat, i: nat)
    requires b < |names| == |specs| && i < |Items(specs[b])| && PlainItems(Items(specs[b]), l, c)
    ensures PvHead(names, specs, l, b, i) == names[b]
  {
    PlainHead(Items(specs[b]), l, c, i);
    assert names[b] + "" == names[b];
  }

  /**
   * Inputs in whose labels and names the separators do not occur again, with PV
   * names of any kind: one group per PV, one dataset per column, whose name
   * keeps what the separator has behind its first character.
   */
  lemma {:induction false} PlainInputsBuild(names: seq<string>, specs: seq<seq<ColumnSpec>>, l: Separator, c: Separator)
    requires CleanPrefixes(names, specs, c) && SortedNames(names)
    requires forall b :: 0 <= b < |specs| ==> PlainItems(Items(specs[b]), l, c)
    ensures Built(TimeColumns(Layout(names, specs, l, c)), DataColumns(Layout(names, specs, l, c)), l, c).Ok?
            == AllItemsDistinct(specs)
    ensures forall b, i :: 0 <= b < |names| && 0 <= i < |Items(specs[b])| ==>
      var col := Pieces(names, specs, l, c)[b][i];
      && PvOf(col, l) == names[b]
      && NameParts(col, c) == Some(Parts(ColPrefix(b, |names|), c[1..] + Items(specs[b])[i].name))
  {
    forall b, i | 0 <= b < |specs| && 0 <= i < |Items(specs[b])| ensures InStep(names, specs, l, c, b, i) {
      PlainInStep(names, specs, l, c, b, i);
    }
    MergedTableBuildsIff(names, specs, l, c);
    forall b, i | 0 <= b < |names| && 0 <= i < |Items(specs[b])|
      ensures var col := Pieces(names, specs, l, c)[b][i];
        && PvOf(col, l) == names[b]
        && NameParts(col, c) == Some(Parts(ColPrefix(b, |names|), c[1..] + Items(specs[b])[i].name))
    {
      WhereStored(names, specs, l, c, b, i);
      PlainHead(Items(specs[b]), l, c, i);
      assert names[b] + "" == names[b] && ColPrefix(b, |names|) + "" == ColPrefix(b, |names|);
    }
  }

  // ----- separators that are not good for all inputs -----

  /** Whatever the inputs are called and hold, distinct names within each give a merged table with distinct names. */
  ghost predicate AlwaysDistinct(names: seq<string>, l: Separator, c: Separator) {
    forall specs :: |specs| == |names| && AllItemsDistinct(specs) ==> DistinctNames(Layout(names, specs, l, c))
  }

  /** One column each for inputs i and j, and none for the others. */
  function TwoColumns(n: nat, i: nat, x: string, j: nat, y: string): (r: seq<seq<ColumnSpec>>)
    ensures |r| == n && forall b :: 0 <= b < n ==>
      r[b] == if b == i then [ColumnSpec(BoolA, x, "")] else if b == j then [ColumnSpec(BoolA, y, "")] else []
  {
    seq(n, b requires 0 <= b < n =>
      if b == i then [ColumnSpec(BoolA, x, "")] else if b == j then [ColumnSpec(BoolA, y, "")] else [])
  }

  /** Where two prefixes are not apart, two inputs of one column each clash. */
  lemma ClashingInputs(names: seq<string>, l: Separator, c: Separator, i: nat, j: nat)
    requires i < |names| && j < |names| && i != j
    requires ColPrefix(i, |names|) + c <= ColPrefix(j, |names|) + c
    ensures !AlwaysDistinct(names, l, c)
  {
    var p, q := ColPrefix(i, |names|) + c, ColPrefix(j, |names|) + c;
    var x, y := q[|p|..] + "x", "x";
    var specs := TwoColumns(|names|, i, x, j, y);
    TwoColumnsDistinct(|names|, i, x, j, y);
    WhereStored(names, specs, l, c, i, 1);
    WhereStored(names, specs, l, c, j, 1);
    assert p + x == q + y;
    SameNameTwice(names, specs, l, c, i, j);
  }

  lemma TwoColumnsDistinct(n: nat, i: nat, x: string, j: nat, y: string)
    requires x != "" && y != "" && x[|x| - 1] == 'x' && y[|y| - 1] == 'x'
    ensures AllItemsDistinct(TwoColumns(n, i, x, j, y))
  {
    var v := VALID.name;
    assert v[|v| - 1] == 'd';
  }

  lemma SameNameTwice(names: seq<string>, specs: seq<seq<ColumnSpec>>, l: Separator, c: Separator, i: nat, j: nat)
    requires |names| == |specs| && i < |names| && j < |names| && i != j && |specs[i]| == 1 && |specs[j]| == 1
    requires Pieces(names, specs, l, c)[i][1].name == Pieces(names, specs, l, c)[j][1].name
    ensures !DistinctNames(Layout(names, specs, l, c))
  {
    var pieces := Pieces(names, specs, l, c);
    var data := Flatten(pieces);
    FlattenAt(pieces, i, 1);
    FlattenAt(pieces, j, 1);
    if i < j { OffsetsAscend(pieces, i, j); } else { OffsetsAscend(pieces, j, i); }
    var k, m := Offset(pieces, i) + 1, Offset(pieces, j) + 1;
    assert k != m && data[k].name == data[m].name;
    LayoutIs(names, specs, l, c);
    assert (TIME_COLUMNS + data)[NUM_TIME_COLS + k] == data[k] && (TIME_COLUMNS + data)[NUM_TIME_COLS + m] == data[m];
  }

  /**
   * A column separator gives distinct names for all inputs exactly when it
   * keeps the column prefixes of that many inputs apart; PrefixesApartIff says
   * for which separators and numbers it does.
   */
  lemma AlwaysDistinctIff(names: seq<string>, l: Separator, c: Separator)
    ensures AlwaysDistinct(names, l, c) <==> AllApart(Prefixes(|names|), c)
  {
    if AllApart(Prefixes(|names|), c) {
      forall specs | |specs| == |names| && AllItemsDistinct(specs) ensures DistinctNames(Layout(names, specs, l, c)) {
        LayoutNamesDistinctIff(names, specs, l, c);
      }
    } else {
      var i, j :| 0 <= i < |names| && 0 <= j < |names| && !Apart(Prefixes(|names|)[i], Prefixes(|names|)[j], c);
      if ColPrefix(i, |names|) + c <= ColPrefix(j, |names|) + c {
        ClashingInputs(names, l, c, i, j);
      } else {
        ClashingInputs(names, l, c, j, i);
      }
    }
  }
}
