/** The table that aligns the buffers of all input PVs in time. */
module TimeAlignedTables {
  import opened Results
  import opened TimeStamps
  import opened TimeTables
  import opened RowQueues
  import opened TableBuffers
  import opened TimeBoundsOf
  import opened Merging
  import opened Alignment
  import opened Naming
  import opened NameOrder
  import opened Selection
  import opened BufferLists
  import opened ExtractLoops

  /** The columns of one buffer in the published table: the valid flags, then the data. */
  function GridColumns(g: Grid): seq<seq<Cell>> { [g.valid] + g.cols }

  function AllGridColumns(grids: seq<Grid>): (r: seq<seq<seq<Cell>>>)
    ensures |r| == |grids| && forall b :: 0 <= b < |grids| ==> r[b] == GridColumns(grids[b])
  {
    seq(|grids|, b requires 0 <= b < |grids| => GridColumns(grids[b]))
  }

  /** Seconds, nanoseconds and user tags of the published timestamps. */
  function TimeColumnsOf(u: seq<TimeStamp>): seq<seq<Cell>> {
    [seq(|u|, i requires 0 <= i < |u| => Int(u[i].sec)),
     seq(|u|, i requires 0 <= i < |u| => Int(u[i].nsec)),
     seq(|u|, i requires 0 <= i < |u| => Int(u[i].utag))]
  }

  /** All columns of a published table, in the order of its type. */
  function OutputColumns(e: Extraction): seq<seq<Cell>> {
    TimeColumnsOf(e.u) + Flatten(AllGridColumns(e.grids))
  }

  /** The published value: the output columns in a value of the table's type. */
  function Published(specs: seq<ColumnSpec>, e: Extraction): Value {
    if |OutputColumns(e)| == |specs| then WithColumns(specs, OutputColumns(e)) else NoValue
  }

  lemma {:induction false} SameTotal<T, U>(a: seq<seq<T>>, b: seq<seq<U>>)
    requires |a| == |b| && forall i :: 0 <= i < |a| ==> |a[i]| == |b[i]|
    ensures |Flatten(a)| == |Flatten(b)|
  {
    if a != [] { SameTotal(a[1..], b[1..]); }
  }

  /** The number of output columns is that of the layout: the size check of extract cannot fail. */
  lemma ColumnCountsAgree(names: seq<string>, specs: seq<seq<ColumnSpec>>, e: Extraction, labelSep: string,
        colSep: string)
    requires |names| == |specs| == |e.grids|
    requires forall b :: 0 <= b < |specs| ==> |e.grids[b].cols| == |specs[b]|
    ensures |OutputColumns(e)| == |Layout(names, specs, labelSep, colSep)|
  {
    SameTotal(AllGridColumns(e.grids), Pieces(names, specs, labelSep, colSep));
  }

  /** A published table satisfies the validation of its own type: names, labels, types and equal lengths. */
  lemma PublishedFits(specs: seq<ColumnSpec>, e: Extraction, types: seq<seq<TypeCode>>)
    requires |OutputColumns(e)| == |specs| && |e.grids| == |types|
    requires forall b :: 0 <= b < |types| ==> Shaped(e.grids[b], types[b], |e.u|)
    ensures Fits(specs, Published(specs, e))
    ensures SpecsOf(Published(specs, e)) == specs
  {
    var out, pieces := OutputColumns(e), AllGridColumns(e.grids);
    forall i | 0 <= i < |out| ensures |out[i]| == |e.u| {
      if i >= 3 {
        assert out[i] == Flatten(pieces)[i - 3];
        FlattenElements(pieces, i - 3);
        var o :| 0 <= o < |pieces| && Flatten(pieces)[i - 3] in pieces[o];
        assert Shaped(e.grids[o], types[o], |e.u|);
      }
    }
    TypeRoundTrip(specs, out);
  }

  /** The value's rows are behind the other rows of buffer b, and nothing else changed. */
  ghost predicate PushedAt(after: seq<Queue>, before: seq<Queue>, b: nat, value: Value) {
    && b < |before|
    && value.Value? && value.columns.Some?
    && |value.columns.value| >= NUM_TIME_COLS && EqualLengths(value.columns.value)
    && after == before[b := before[b].Pushed(RowsOf(value.columns.value))]
  }

  class TimeAlignedTable {
    const labelSep: string
    const colSep: string
    var names: seq<string>           // keys of buffers_, in map order
    var buffers: seq<TableBuffer>    // the values for those keys
    var typ: Option<seq<ColumnSpec>>

    ghost function HeldTypes(): (r: seq<Option<seq<ColumnSpec>>>)
      reads this`buffers, buffers
      ensures |r| == |buffers|
    {
      BufferLists.HeldTypes(buffers)
    }

    ghost function Specs(): seq<seq<ColumnSpec>>
      reads this`buffers, buffers
    {
      SpecsOfAll(buffers)
    }

    ghost function Qs(): seq<Queue>
      reads this`buffers, buffers
    {
      QueuesOf(buffers)
    }

    ghost function Types(): seq<seq<TypeCode>>
      reads this`buffers, buffers
    {
      TypesOfAll(SpecsOfAll(buffers))
    }

    /** Keys sorted, buffers separate objects in good state. */
    ghost predicate Structure()
      reads this, buffers
    {
      && |names| == |buffers| && SortedNames(names)
      && Separate(buffers)
      && AllValid(buffers)
    }

    /** The layout invariant: a type that has been set is the one of all its buffers, which are all initialised. */
    ghost predicate Valid()
      reads this, buffers
    {
      && Structure()
      && (typ.Some? ==>
            && AllInitialized(buffers)
            && typ.value == Layout(names, Specs(), labelSep, colSep))
    }

    constructor (pvlist: seq<string>, labelSep: string, colSep: string)
      ensures Valid() && fresh(buffers)
      ensures this.labelSep == labelSep && this.colSep == colSep
      ensures forall n :: n in names <==> n in pvlist
      ensures typ == None
      ensures forall b :: 0 <= b < |buffers| ==> buffers[b].typ == None && buffers[b].Q() == Queue([], 0)
    {
      this.labelSep, this.colSep := labelSep, colSep;
      names, buffers, typ := [], [], None;
      new;
      for i := 0 to |pvlist|
        invariant SortedNames(names) && buffers == [] && typ == None
        invariant forall n :: n in names <==> n in pvlist[..i]
      {
        InsertNameKeeps(names, pvlist[i]);
        names := InsertName(names, pvlist[i]);
        assert pvlist[..i + 1] == pvlist[..i] + [pvlist[i]];
      }
      assert pvlist[..|pvlist|] == pvlist;
      while |buffers| < |names|
        invariant |buffers| <= |names| && fresh(buffers) && typ == None
        invariant SortedNames(names) && forall n :: n in names <==> n in pvlist
        invariant Separate(buffers)
        invariant forall b :: 0 <= b < |buffers| ==>
          buffers[b].Valid() && buffers[b].typ == None && buffers[b].Q() == Queue([], 0)
      {
        var buf := new TableBuffer();
        buffers := buffers + [buf];
      }
    }

    predicate Initialized()
      reads this
    {
      typ.Some?
    }

    /** With the type set, all buffers have types that begin with the time columns, and it is laid out from them. */
    lemma TypesKnown()
      requires Valid() && typ.Some?
      ensures |HeldTypes()| == |names| == |Specs()|
      ensures forall b :: 0 <= b < |names| ==>
        HeldTypes()[b].Some? && TimesFirst(HeldTypes()[b].value) && Specs()[b] == SpecsOfType(HeldTypes()[b])
      ensures LaidOut(typ.value, names, Specs(), labelSep, colSep)
    {
      LayoutIsLaidOut(names, Specs(), labelSep, colSep);
      forall b | 0 <= b < |names| ensures HeldTypes()[b].Some? && TimesFirst(HeldTypes()[b].value) {
        assert buffers[b].Valid() && HeldTypes()[b] == buffers[b].typ;
      }
    }

    /** Builds the type once all buffers have theirs. */
    method Initialize()
      requires Valid()
      modifies this`typ
      ensures Valid()
      ensures old(typ).Some? ==> typ == old(typ)
      ensures old(typ).None? ==> (typ.Some? <==> AllInitialized(buffers))
      ensures typ.Some? ==> LaidOut(typ.value, names, Specs(), labelSep, colSep)
      ensures Qs() == old(Qs()) && HeldTypes() == old(HeldTypes())
    {
      if typ.Some? {
        LayoutIsLaidOut(names, Specs(), labelSep, colSep);
        return;
      }
      InitializeOnce();
      LayoutIsLaidOut(names, Specs(), labelSep, colSep);
    }

    method InitializeOnce()
      requires Structure() && typ.None?
      modifies this`typ
      ensures typ.Some? <==> AllInitialized(buffers)
      ensures typ.Some? ==> typ.value == Layout(names, Specs(), labelSep, colSep)
    {
      var all := CheckInitialized(buffers);
      if !all {
        return;
      }
      var columns := BuildType();
      typ := Some(columns);
    }

    method BuildType() returns (columns: seq<ColumnSpec>)
      requires Structure() && AllInitialized(buffers)
      ensures columns == Layout(names, Specs(), labelSep, colSep)
    {
      var dataColumns := GatherColumns(names, buffers, labelSep, colSep);
      columns := FromDataColumns(dataColumns);
    }

    /** Drops the buffers that never got an update and fixes the type with the rest. */
    method ForceInitialize() returns (remaining: nat)
      requires Valid()
      modifies this
      ensures Valid() && typ.Some? && remaining == |buffers|
      ensures LaidOut(typ.value, names, Specs(), labelSep, colSep)
      ensures old(typ).Some? ==> typ == old(typ) && names == old(names) && buffers == old(buffers)
      ensures buffers == Kept(old(buffers), old(InitFlags(buffers)))
      ensures names == Kept(old(names), old(InitFlags(buffers)))
    {
      RemoveUninitialized();
      Initialize();
      remaining := |buffers|;
    }

    /** Once the type is set there is nothing to remove. */
    method RemoveUninitialized()
      requires Valid()
      modifies this`names, this`buffers
      ensures Valid() && AllInitialized(buffers)
      ensures typ.Some? ==> names == old(names) && buffers == old(buffers)
      ensures buffers == Kept(old(buffers), old(InitFlags(buffers)))
      ensures names == Kept(old(names), old(InitFlags(buffers)))
    {
      ghost var flags, specs := InitFlags(buffers), Specs();
      EraseUninitialized();
      if typ.Some? {
        NothingDropped(old(names), flags, names);
        NothingDropped(old(buffers), flags, buffers);
        assert Specs() == specs;
      }
    }

    method EraseUninitialized()
      requires Structure()
      modifies this`names, this`buffers
      ensures Structure() && AllInitialized(buffers)
      ensures buffers == Kept(old(buffers), old(InitFlags(buffers)))
      ensures names == Kept(old(names), old(InitFlags(buffers)))
    {
      names, buffers := SelectInitialized(names, buffers);
    }

    /** The bounds over the spans of the unconsumed rows of all buffers. */
    method GetTimebounds() returns (t: TimeBounds)
      requires Structure()
      ensures t == BoundsOf(Spans(Qs()))
    {
      var timespans := TimeSpans(buffers);
      t := TimeBoundsOf.Compute(timespans);
    }

    method Find(name: string) returns (found: bool, b: nat)
      requires Structure()
      ensures found <==> name in names
      ensures found ==> b == IndexOf(names, name)
    {
      b := 0;
      while b < |names|
        invariant b <= |names| && name !in names[..b]
      {
        if names[b] == name {
          if b != IndexOf(names, name) { SortedDistinct(names, b, IndexOf(names, name)); }
          return true, b;
        }
        b := b + 1;
      }
      assert names[..b] == names;
      found := false;
    }

    /**
     * Pushes an update to the buffer of that name, then fixes the type if it
     * can be. The update is taken exactly when there is such a buffer and it
     * fits the type that buffer then has.
     */
    method Push(name: string, value: Value) returns (r: Result<()>)
      requires Valid() && Format(value)
      modifies this`typ, buffers
      ensures Valid() && (old(typ).Some? ==> typ == old(typ))
      ensures r.Ok? <==> name in names && Accepts(TypeAfter(old(HeldTypes())[IndexOf(names, name)], value), value)
      ensures r.Err? ==> r.error == if name in names then RuntimeError else OutOfRange
      ensures name in names ==>
        var b := IndexOf(names, name); HeldTypes() == old(HeldTypes())[b := TypeAfter(old(HeldTypes())[b], value)]
      ensures name !in names ==> HeldTypes() == old(HeldTypes())
      ensures r.Err? ==> Qs() == old(Qs())
      ensures r.Ok? ==> PushedAt(Qs(), old(Qs()), IndexOf(names, name), value)
      ensures r.Ok? ==> (typ.Some? <==> AllInitialized(buffers))
    {
      var found, b := Find(name);
      if !found {
        return Err(OutOfRange);
      }
      r := PushTo(b, value);
      if r.Err? {
        return;
      }
      Initialize();
    }

    method PushTo(b: nat, value: Value) returns (r: Result<()>)
      requires Valid() && Format(value) && b < |buffers|
      modifies buffers[b]
      ensures Valid()
      ensures HeldTypes() == old(HeldTypes())[b := TypeAfter(old(HeldTypes())[b], value)]
      ensures r.Ok? <==> Accepts(TypeAfter(old(HeldTypes())[b], value), value)
      ensures r.Ok? ==> PushedAt(Qs(), old(Qs()), b, value)
      ensures r.Err? ==> Qs() == old(Qs()) && r.error == RuntimeError
    {
      ghost var types := HeldTypes();
      r := PushInto(buffers, b, value);
      assert typ.Some? ==> types == types[b := types[b]];
    }

    /** Extracts the time-aligned rows of the window [start, end). */
    method Extract(start: TimeStamp, end: TimeStamp) returns (r: Result<Value>)
      requires Valid() && typ.Some?
      modifies buffers
      ensures Valid() && HeldTypes() == old(HeldTypes())
      ensures Gt(start, end) ==> r == Err(RuntimeError) && Qs() == old(Qs())
      ensures !Gt(start, end) ==> r == Ok(Published(typ.value, Extracted(old(Qs()), Types(), start, end)))
      ensures !Gt(start, end) ==> Fits(typ.value, r.value)
      ensures !Gt(start, end) ==> Qs() == AfterExtract(old(Qs()), Types(), start, end)
    {
      if Gt(start, end) {
        return Err(RuntimeError);
      }
      var e := ExtractAll(buffers, start, end);
      ColumnCountsAgree(names, Specs(), e, labelSep, colSep);
      var columns := OutputColumns(e);
      if |typ.value| != |columns| {
        return Err(LogicError);
      }
      PublishedFits(typ.value, e, Types());
      return Ok(WithColumns(typ.value, columns));
    }
  }
}
