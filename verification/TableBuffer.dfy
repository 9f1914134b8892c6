/** The FIFO of table updates of one input PV. */
module TableBuffers {
  import opened Results
  import opened TimeStamps
  import opened TimeTables
  import opened RowQueues

  datatype TimeSpan = TimeSpan(valid: bool, start: TimeStamp, end: TimeStamp)

  const EMPTY_SPAN := TimeSpan(false, MAX_TS, MIN_TS)

  /** The span of a flat queue: times of its first and last row, without their tags. */
  function SpanOf(live: seq<Row>): TimeSpan {
    if live == [] then EMPTY_SPAN else TimeSpan(true, Untagged(live[0].ts), Untagged(live[|live| - 1].ts))
  }

  /**
   * The table format the buffer documents as an assumption about its input:
   * the time columns are there and there is at least one row.
   */
  ghost predicate Format(v: Value) {
    v.Value? && v.columns.Some? ==> |v.columns.value| >= NUM_TIME_COLS && v.columns.value[0].data != []
  }

  /** The value fits a type that is set. */
  ghost predicate Accepts(typ: Option<seq<ColumnSpec>>, value: Value) {
    typ.Some? && |typ.value| >= NUM_TIME_COLS && Fits(typ.value, value)
  }

  /** The type after an update: the first update with one fixes it. */
  function TypeAfter(typ: Option<seq<ColumnSpec>>, value: Value): Option<seq<ColumnSpec>> {
    if typ.None? && Labelled(value) && TimeNamed(value) then Some(SpecsOf(value)) else typ
  }

  /** The columns of the value, with their element types, names and labels. */
  ghost predicate Declares(v: Value, specs: seq<ColumnSpec>) {
    && v.Value? && v.labels.Some? && v.columns.Some? && |v.labels.value| == |v.columns.value| == |specs|
    && forall i :: 0 <= i < |specs| ==>
         && specs[i].typ == v.columns.value[i].typ && specs[i].name == v.columns.value[i].name
         && specs[i].labelText == v.labels.value[i]
  }

  /** Behind the rows before there is a row for each row of the columns, with its time and its cells in column order. */
  ghost predicate AddsRows(columns: seq<Column>, before: seq<Row>, after: seq<Row>) {
    && |columns| >= 3 && EqualLengths(columns)
    && |after| == |before| + |columns[0].data| && after[..|before|] == before
    && forall j :: |before| <= j < |after| ==> IsRow(columns, j - |before|, after[j])
  }

  class TableBuffer {
    var typ: Option<seq<ColumnSpec>>
    var startTs: TimeStamp
    var endTs: TimeStamp
    var buffer: seq<seq<Row>>   // each accepted update, as its rows
    var innerIdx: nat           // rows of buffer[0] already consumed

    /** The abstract value. */
    ghost function Q(): Queue
      reads this`buffer, this`innerIdx
    {
      Queue(buffer, innerIdx)
    }

    /** No held update is empty, the index is inside the first one, and the cached times are current. */
    ghost predicate Valid()
      reads this
    {
      && (if typ.None? then buffer == []
          else TimesFirst(typ.value) && Wide(Q().Live(), |typ.value| - NUM_TIME_COLS))
      && Q().Ok()
      && CacheCurrent()
    }

    ghost predicate CacheCurrent()
      reads this
    {
      Q().Live() != [] ==> SpanOf(Q().Live()) == TimeSpan(true, startTs, endTs)
    }

    constructor ()
      ensures Valid() && typ == None && Q() == Queue([], 0)
    {
      typ, buffer, innerIdx := None, [], 0;
      startTs, endTs := MIN_TS, MIN_TS;
    }

    predicate Initialized()
      reads this
    {
      typ.Some?
    }

    predicate Empty()
      reads this
    {
      buffer == []
    }

    method UpdateTimestamps()
      requires Q().Ok()
      modifies this`startTs, this`endTs
      ensures CacheCurrent()
    {
      if Empty() {
        return;
      }
      startTs := Untagged(buffer[0][innerIdx].ts);
      var last := buffer[|buffer| - 1];
      endTs := Untagged(last[|last| - 1].ts);
      FirstAndLast(Q());
    }

    /** The cached span is the span of the rows not yet consumed. */
    method GetTimeSpan() returns (span: TimeSpan)
      requires Valid()
      ensures span == SpanOf(Q().Live())
    {
      Q().EmptyIffNoChunks();
      if Empty() {
        return EMPTY_SPAN;
      }
      return TimeSpan(true, startTs, endTs);
    }

    /**
     * Appends an update. The first one fixes the type, even when the update
     * itself is then rejected for columns of different lengths.
     */
    method Push(value: Value) returns (r: Result<()>)
      requires Valid() && Format(value)
      modifies this
      ensures Valid()
      ensures typ == TypeAfter(old(typ), value)
      ensures old(typ).Some? ==> typ == old(typ)
      ensures old(typ).None? ==> (typ.Some? <==> Labelled(value) && TimeNamed(value))
      ensures old(typ).None? && typ.Some? ==> Declares(value, typ.value)
      ensures r.Ok? <==> Accepts(typ, value)
      ensures r.Ok? ==> Q() == old(Q()).Pushed(RowsOf(value.columns.value))
      ensures r.Ok? ==> Q().Live() == old(Q().Live()) + RowsOf(value.columns.value)
      ensures r.Ok? ==> AddsRows(value.columns.value, old(Q().Live()), Q().Live())
      ensures r.Err? ==> Q() == old(Q()) && r.error == RuntimeError
    {
      if typ.None? {
        var specs := FromValue(value);
        if specs.Err? {
          return Err(specs.error);
        }
        typ := Some(specs.value);
        assert Valid();
      }
      var fits := IsValid(typ.value, value);
      if !fits {
        return Err(RuntimeError);
      }
      Append(RowsOf(value.columns.value));
      return Ok(());
    }

    /** Adds a wrapped update behind the others. */
    method Append(rows: seq<Row>)
      requires Valid() && rows != []
      requires typ.Some? && Wide(rows, |typ.value| - NUM_TIME_COLS)
      modifies this`buffer, this`startTs, this`endTs
      ensures Valid()
      ensures Q() == old(Q()).Pushed(rows)
      ensures Q().Live() == old(Q().Live()) + rows
    {
      Q().PushedLive(rows);
      buffer := buffer + [rows];
      UpdateTimestamps();
    }

    /**
     * Calls f on the unconsumed rows, chunk by chunk, and answers where it
     * stopped: chunk index and row index in that chunk.
     */
    method ConsumeEachRowInner<S>(f: (S, Row) -> (S, bool), s0: S) returns (s: S, outerIdx: nat, inner: nat)
      requires Q().Ok()
      ensures outerIdx <= |buffer|
      ensures if outerIdx == |buffer| then inner == 0 else inner < |buffer[outerIdx]|
      ensures innerIdx <= |Flatten(buffer)|
      ensures s == Consume(f, s0, Flatten(buffer), innerIdx).0
      ensures Offset(buffer, outerIdx) + inner == Consume(f, s0, Flatten(buffer), innerIdx).1
    {
      s, outerIdx := s0, 0;
      Q().InnerInRange();
      ghost var rows, at := Flatten(buffer), innerIdx;
      ghost var stop := Consume(f, s0, rows, at);
      while outerIdx < |buffer|
        invariant outerIdx <= |buffer| && at == Offset(buffer, outerIdx) + if outerIdx == 0 then innerIdx else 0
        invariant at <= |rows| && Consume(f, s, rows, at) == stop
      {
        var v := buffer[outerIdx];
        inner := if outerIdx == 0 then innerIdx else 0;
        ConsumeWithinChunk(f, s, buffer, outerIdx, inner);
        ghost var within := Consume(f, s, v, inner);
        while inner < |v|
          invariant inner <= |v|
          invariant Consume(f, s, v, inner) == within
        {
          var r := f(s, v[inner]);
          s := r.0;
          if r.1 {
            assert within == (s, inner);
            return;
          }
          inner := inner + 1;
        }
        assert within == (s, |v|);
        outerIdx := outerIdx + 1;
        at := Offset(buffer, outerIdx);
      }
      inner := 0;
      OffsetEnd(buffer);
    }

    /** Calls f on the unconsumed rows up to the first it answers true on, and removes the rows before that one. */
    method ConsumeEachRow<S>(f: (S, Row) -> (S, bool), s0: S) returns (s: S)
      requires Valid()
      modifies this
      ensures Valid() && typ == old(typ)
      ensures s == Consume(f, s0, old(Q().Live()), 0).0
      ensures Q() == old(Q()).Dropped(Consume(f, s0, old(Q().Live()), 0).1)
      ensures Q().Live() == old(Q().Live())[Consume(f, s0, old(Q().Live()), 0).1..]
    {
      var outerIdx, inner;
      s, outerIdx, inner := ConsumeEachRowInner(f, s0);
      Stopped(f, s0, Q(), s, outerIdx, inner);
      RemoveConsumed(outerIdx, inner);
    }

    /** Removes fully consumed updates, then the rows of the partially consumed one. */
    method RemoveConsumed(outerIdx: nat, inner: nat)
      requires Valid() && outerIdx <= |buffer|
      requires Queue(buffer[outerIdx..], inner).Ok()
      requires typ.Some? ==> Wide(Queue(buffer[outerIdx..], inner).Live(), |typ.value| - NUM_TIME_COLS)
      modifies this
      ensures Valid() && typ == old(typ)
      ensures Q() == Queue(old(buffer)[outerIdx..], inner)
    {
      for idx := 0 to outerIdx
        invariant typ == old(typ) && buffer == old(buffer)[idx..]
      {
        buffer := buffer[1..];
      }
      innerIdx := inner;
      UpdateTimestamps();
    }

    /** Inserts the timestamps of all held rows that lie in [start, end), consumed rows of the first chunk included. */
    method ExtractTimestampsBetween(start: TimeStamp, end: TimeStamp,
          acc: seq<TimeStamp>) returns (timestamps: seq<TimeStamp>)
      requires Valid()
      ensures timestamps == Gather(Flatten(buffer), 0, start, end, acc)
    {
      timestamps := acc;
      ghost var rows := Flatten(buffer);
      ghost var all := Gather(rows, 0, start, end, acc);
      for o := 0 to |buffer|
        invariant Offset(buffer, o) <= |rows|
        invariant Gather(rows, Offset(buffer, o), start, end, timestamps) == all
      {
        var buf := buffer[o];
        for row := 0 to |buf|
          invariant Offset(buffer, o) + row <= |rows|
          invariant Gather(rows, Offset(buffer, o) + row, start, end, timestamps) == all
        {
          FlattenAt(buffer, o, row);
          assert rows[Offset(buffer, o) + row] == buf[row];
          var ts := buf[row].ts;
          if Ge(ts, start) && Lt(ts, end) {
            timestamps := Insert(timestamps, ts);
          }
        }
        FlattenAt(buffer, o, |buf|);
      }
      OffsetEnd(buffer);
    }
  }

  lemma FirstAndLast(q: Queue)
    requires q.Ok() && q.chunks != []
    ensures q.Live() != []
    ensures var last := q.chunks[|q.chunks| - 1];
            SpanOf(q.Live()) == TimeSpan(true, Untagged(q.chunks[0][q.inner].ts), Untagged(last[|last| - 1].ts))
  {
    q.InnerInRange();
    FlattenAt(q.chunks, 0, q.inner);
    FlattenAt(q.chunks, |q.chunks| - 1, |q.chunks[|q.chunks| - 1]| - 1);
    OffsetEnd(q.chunks);
  }

  /** Consuming from position i of the whole sequence is consuming from position 0 of what follows b. */
  lemma {:induction false} ConsumeShift<S>(f: (S, Row) -> (S, bool), s: S, rows: seq<Row>, b: nat, i: nat)
    requires b <= i <= |rows|
    ensures var (s', k) := Consume(f, s, rows[b..], i - b); Consume(f, s, rows, i) == (s', b + k)
    decreases |rows| - i
  {
    if i < |rows| {
      ConsumeShift(f, f(s, rows[i]).0, rows, b, i + 1);
    }
  }

  lemma ConsumeFromLive<S>(f: (S, Row) -> (S, bool), s: S, q: Queue)
    requires q.Ok()
    ensures q.inner <= |Flatten(q.chunks)|
    ensures var (s', k) := Consume(f, s, q.Live(), 0); Consume(f, s, Flatten(q.chunks), q.inner) == (s', q.inner + k)
  {
    q.InnerInRange();
    ConsumeShift(f, s, Flatten(q.chunks), q.inner, q.inner);
  }

  /** Consuming the flat sequence from inside chunk o either stops in that chunk or goes on behind it. */
  lemma {:induction false} ConsumeWithinChunk<S>(f: (S, Row) -> (S, bool), s: S, chunks: seq<seq<Row>>, o: nat, i: nat)
    requires o < |chunks| && i <= |chunks[o]|
    ensures Offset(chunks, o) + i <= |Flatten(chunks)|
    ensures Offset(chunks, o + 1) <= |Flatten(chunks)|
    ensures var (s', k) := Consume(f, s, chunks[o], i);
            Consume(f, s, Flatten(chunks), Offset(chunks, o) + i)
            == if k < |chunks[o]| then (s', Offset(chunks, o) + k)
               else Consume(f, s', Flatten(chunks), Offset(chunks, o + 1))
    decreases |chunks[o]| - i
  {
    FlattenAt(chunks, o, i);
    if i < |chunks[o]| {
      var (s', done) := f(s, chunks[o][i]);
      if !done {
        ConsumeWithinChunk(f, s', chunks, o, i + 1);
      }
    }
  }

  /** Dropping o chunks and moving the index to i is dropping the k live rows before row i of chunk o. */
  lemma {:induction false} StopPosition(q: Queue, o: nat, i: nat, k: nat)
    requires q.Ok() && o <= |q.chunks|
    requires if o == |q.chunks| then i == 0 else i < |q.chunks[o]|
    requires Offset(q.chunks, o) + i == q.inner + k
    ensures k <= |q.Live()|
    ensures q.Dropped(k) == Queue(q.chunks[o..], i)
    ensures q.Dropped(k).Ok() && q.Dropped(k).Live() == q.Live()[k..]
  {
    q.InnerInRange();
    if o < |q.chunks| {
      FlattenAt(q.chunks, o, i);
      AdvanceAt(q.chunks, o, i);
    } else {
      OffsetEnd(q.chunks);
      AdvanceAll(q.chunks);
    }
    q.DroppedLive(k);
  }

  /** Where consuming stopped, in terms of the queue. */
  lemma {:induction false} Stopped<S>(f: (S, Row) -> (S, bool), s0: S, q: Queue, s: S, o: nat, i: nat)
    requires q.Ok() && o <= |q.chunks| && (if o == |q.chunks| then i == 0 else i < |q.chunks[o]|)
    requires q.inner <= |Flatten(q.chunks)|
    requires Consume(f, s0, Flatten(q.chunks), q.inner) == (s, Offset(q.chunks, o) + i)
    ensures Consume(f, s0, q.Live(), 0).0 == s
    ensures var k := Consume(f, s0, q.Live(), 0).1;
      && k <= |q.Live()| && q.Dropped(k) == Queue(q.chunks[o..], i)
      && q.Dropped(k).Ok() && q.Dropped(k).Live() == q.Live()[k..]
  {
    ConsumeFromLive(f, s0, q);
    StopPosition(q, o, i, Offset(q.chunks, o) + i - q.inner);
  }
}
