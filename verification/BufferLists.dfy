/** Loops over the buffers of a table, in map order, and their abstract values. */
module BufferLists {
  import opened Results
  import opened TimeTables
  import opened RowQueues
  import opened TableBuffers
  import opened TimeBoundsOf
  import opened Naming
  import opened NameOrder
  import opened Selection

  function TypesOf(specs: seq<ColumnSpec>): (r: seq<TypeCode>)
    ensures |r| == |specs|
  {
    seq(|specs|, c requires 0 <= c < |specs| => specs[c].typ)
  }

  // ----- abstract values of a list of buffers -----

  /** The types the buffers have so far. */
  ghost function HeldTypes(bs: seq<TableBuffer>): (r: seq<Option<seq<ColumnSpec>>>)
    reads bs
    ensures |r| == |bs| && forall b :: 0 <= b < |bs| ==> r[b] == bs[b].typ
  {
    seq(|bs|, b requires 0 <= b < |bs| reads bs => bs[b].typ)
  }

  /** The data columns of a type; none before there is one. */
  function SpecsOfType(typ: Option<seq<ColumnSpec>>): seq<ColumnSpec> {
    if typ.Some? && |typ.value| >= NUM_TIME_COLS then DataColumns(typ.value) else []
  }

  function SpecsOfTypes(types: seq<Option<seq<ColumnSpec>>>): (r: seq<seq<ColumnSpec>>)
    ensures |r| == |types| && forall b :: 0 <= b < |types| ==> r[b] == SpecsOfType(types[b])
  {
    seq(|types|, b requires 0 <= b < |types| => SpecsOfType(types[b]))
  }

  ghost function SpecsOfBuffer(b: TableBuffer): seq<ColumnSpec>
    reads b
  {
    SpecsOfType(b.typ)
  }

  ghost function SpecsOfAll(bs: seq<TableBuffer>): (r: seq<seq<ColumnSpec>>)
    reads bs
    ensures |r| == |bs| && forall b :: 0 <= b < |bs| ==> r[b] == SpecsOfBuffer(bs[b])
  {
    SpecsOfTypes(HeldTypes(bs))
  }

  ghost function QueuesOf(bs: seq<TableBuffer>): (r: seq<Queue>)
    reads bs
    ensures |r| == |bs| && forall b :: 0 <= b < |bs| ==> r[b] == bs[b].Q()
  {
    seq(|bs|, b requires 0 <= b < |bs| reads bs => bs[b].Q())
  }

  ghost function InitFlags(bs: seq<TableBuffer>): (r: seq<bool>)
    reads bs
    ensures |r| == |bs| && forall b :: 0 <= b < |bs| ==> r[b] == bs[b].typ.Some?
  {
    seq(|bs|, b requires 0 <= b < |bs| reads bs => bs[b].typ.Some?)
  }

  function TypesOfAll(specs: seq<seq<ColumnSpec>>): (r: seq<seq<TypeCode>>)
    ensures |r| == |specs| && forall b :: 0 <= b < |specs| ==> r[b] == TypesOf(specs[b])
  {
    seq(|specs|, b requires 0 <= b < |specs| => TypesOf(specs[b]))
  }

  // ----- loops over the buffers -----

  ghost predicate AllValid(bs: seq<TableBuffer>)
    reads bs
  {
    forall b :: 0 <= b < |bs| ==> bs[b].Valid()
  }

  ghost predicate Separate(bs: seq<TableBuffer>) {
    forall i, j :: 0 <= i < j < |bs| ==> bs[i] != bs[j]
  }

  ghost predicate AllInitialized(bs: seq<TableBuffer>)
    reads bs
  {
    forall b :: 0 <= b < |bs| ==> bs[b].typ.Some?
  }

  method CheckInitialized(bs: seq<TableBuffer>) returns (all: bool)
    ensures all <==> AllInitialized(bs)
  {
    for b := 0 to |bs|
      invariant forall i :: 0 <= i < b ==> bs[i].typ.Some?
    {
      if !bs[b].Initialized() {
        return false;
      }
    }
    return true;
  }

  method TimeSpans(bs: seq<TableBuffer>) returns (spans: seq<TimeSpan>)
    requires AllValid(bs)
    ensures spans == Spans(QueuesOf(bs))
  {
    spans := [];
    ghost var all := Spans(QueuesOf(bs));
    for b := 0 to |bs|
      invariant spans == all[..b]
    {
      var span := bs[b].GetTimeSpan();
      assert span == all[b] by { assert QueuesOf(bs)[b] == bs[b].Q(); }
      spans := spans + [span];
    }
  }

  /** All prefixed columns, buffer by buffer. */
  method GatherColumns(names: seq<string>, bs: seq<TableBuffer>, labelSep: string,
        colSep: string) returns (columns: seq<ColumnSpec>)
    requires |names| == |bs| && AllValid(bs) && AllInitialized(bs)
    ensures columns == Flatten(Pieces(names, SpecsOfAll(bs), labelSep, colSep))
    ensures LaidOut(FromDataColumns(columns), names, SpecsOfAll(bs), labelSep, colSep)
  {
    columns := [];
    ghost var specs := SpecsOfAll(bs);
    ghost var pieces := Pieces(names, specs, labelSep, colSep);
    for idx := 0 to |bs|
      invariant columns == Flatten(pieces[..idx])
    {
      assert specs[idx] == SpecsOfBuffer(bs[idx]);
      var piece := PrefixColumns(names, idx, DataColumns(bs[idx].typ.value), labelSep, colSep);
      FlattenTake(pieces, idx);
      columns := columns + piece;
    }
    assert pieces[..|bs|] == pieces;
    LayoutIsLaidOut(names, specs, labelSep, colSep);
  }

  /** The prefixed columns of one buffer, one by one. */
  method PrefixColumns(names: seq<string>, idx: nat, specs: seq<ColumnSpec>, labelSep: string,
        colSep: string) returns (columns: seq<ColumnSpec>)
    requires idx < |names|
    ensures columns == BufferColumns(idx, |names|, names[idx], specs, labelSep, colSep)
  {
    columns := [PrefixedColSpec(idx, |names|, names[idx], VALID, labelSep, colSep)];
    for c := 0 to |specs|
      invariant columns == BufferColumns(idx, |names|, names[idx], specs, labelSep, colSep)[..c + 1]
    {
      columns := columns + [PrefixedColSpec(idx, |names|, names[idx], specs[c], labelSep, colSep)];
    }
  }

  /** Keeps the initialised buffers, in order. */
  method SelectInitialized(names: seq<string>, bs: seq<TableBuffer>) returns (ks: seq<string>, kept: seq<TableBuffer>)
    requires |names| == |bs| && SortedNames(names) && Separate(bs) && AllValid(bs)
    ensures ks == Kept(names, InitFlags(bs)) && kept == Kept(bs, InitFlags(bs))
    ensures |ks| == |kept| && SortedNames(ks) && Separate(kept) && AllValid(kept) && AllInitialized(kept)
  {
    ks, kept := DropUninitialized(names, bs);
    SelectionInOrder(names, bs);
  }

  method DropUninitialized(names: seq<string>, bs: seq<TableBuffer>) returns (ks: seq<string>, kept: seq<TableBuffer>)
    requires |names| == |bs|
    ensures ks == Kept(names, InitFlags(bs)) && kept == Kept(bs, InitFlags(bs))
  {
    ks, kept := [], [];
    ghost var flags := InitFlags(bs);
    for b := 0 to |bs|
      invariant ks == Kept(names[..b], flags[..b]) && kept == Kept(bs[..b], flags[..b])
    {
      KeptSnoc(names, flags, b);
      KeptSnoc(bs, flags, b);
      if bs[b].Initialized() {
        ks, kept := ks + [names[b]], kept + [bs[b]];
      }
    }
    assert names[..|bs|] == names && bs[..|bs|] == bs && flags[..|bs|] == flags;
  }

  /** The selected buffers are separate and initialised, and their names stay sorted. */
  lemma SelectionInOrder(names: seq<string>, bs: seq<TableBuffer>)
    requires |names| == |bs| && SortedNames(names) && AllValid(bs)
    requires Separate(bs)
    ensures var ks, kept := Kept(names, InitFlags(bs)), Kept(bs, InitFlags(bs));
      && |ks| == |kept| && SortedNames(ks) && AllValid(kept) && AllInitialized(kept)
      && Separate(kept)
  {
    var idx := KeptIndices(InitFlags(bs));
    assert |Kept(names, InitFlags(bs))| == |idx|;
  }

  /**
   * Pushes an update into buffer b, which takes it exactly when it fits the
   * type the buffer then has; the other buffers stay as they are.
   */
  method PushInto(bs: seq<TableBuffer>, b: nat, value: Value) returns (r: Result<()>)
    requires AllValid(bs) && Separate(bs) && Format(value) && b < |bs|
    modifies bs[b]
    ensures AllValid(bs)
    ensures HeldTypes(bs) == old(HeldTypes(bs))[b := TypeAfter(old(bs[b].typ), value)]
    ensures r.Ok? <==> Accepts(TypeAfter(old(bs[b].typ), value), value)
    ensures r.Ok? ==> QueuesOf(bs) == old(QueuesOf(bs))[b := old(bs[b].Q()).Pushed(RowsOf(value.columns.value))]
    ensures r.Err? ==> QueuesOf(bs) == old(QueuesOf(bs)) && r.error == RuntimeError
  {
    forall i | 0 <= i < |bs| && i != b ensures bs[i] != bs[b] {
      if i < b { assert bs[i] != bs[b]; } else { assert bs[b] != bs[i]; }
    }
    ghost var queues, types := QueuesOf(bs), HeldTypes(bs);
    r := bs[b].Push(value);
    OneChanged(QueuesOf(bs), queues, b, bs[b].Q());
    OneChanged(HeldTypes(bs), types, b, bs[b].typ);
    assert r.Err? ==> queues == queues[b := queues[b]];
  }

  lemma OneChanged<T>(after: seq<T>, before: seq<T>, b: nat, x: T)
    requires b < |before| == |after| && after[b] == x
    requires forall i :: 0 <= i < |before| && i != b ==> after[i] == before[i]
    ensures after == before[b := x]
  {
  }
}
