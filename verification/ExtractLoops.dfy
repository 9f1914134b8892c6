/** The loops of TimeAlignedTable::extract over the buffers. */
module ExtractLoops {
  import opened Results
  import opened TimeStamps
  import opened TimeTables
  import opened RowQueues
  import opened TableBuffers
  import opened BufferLists
  import opened Merging
  import opened Alignment

  /** Sorted unique timestamps of all buffers in the window. */
  method CollectTimestamps(bs: seq<TableBuffer>, start: TimeStamp, end: TimeStamp) returns (u: seq<TimeStamp>)
    requires AllValid(bs)
    ensures u == Union(QueuesOf(bs), start, end)
  {
    u := [];
    ghost var qs := QueuesOf(bs);
    for b := 0 to |bs|
      invariant GatherAll(qs, b, start, end, u) == Union(qs, start, end)
    {
      assert qs[b] == bs[b].Q();
      u := bs[b].ExtractTimestampsBetween(start, end, u);
    }
  }

  /** Merges one buffer into fresh columns and removes the consumed rows from it. */
  method MergeOne(buf: TableBuffer, u: seq<TimeStamp>, end: TimeStamp) returns (g: Grid)
    requires buf.Valid() && buf.typ.Some?
    modifies buf
    ensures buf.Valid() && buf.typ == old(buf.typ)
    ensures g == MergeBuffer(u, end, TypesOf(SpecsOfBuffer(buf)), old(buf.Q().Live())).0
    ensures buf.Q() == old(buf.Q()).Dropped(MergeBuffer(u, end, TypesOf(SpecsOfBuffer(buf)), old(buf.Q().Live())).1)
    ensures Shaped(g, TypesOf(SpecsOfBuffer(buf)), |u|) && !g.broken
  {
    var types := TypesOf(DataColumns(buf.typ.value));
    NeverBroken(u, end, types, buf.Q().Live(), 0, Allocate(types, |u|));
    g := buf.ConsumeEachRow(Callback(u, end, types), Allocate(types, |u|));
    g := FillRemaining(g, types, |u|);
  }

  /** The remaining rows are invalid. */
  method FillRemaining(g0: Grid, types: seq<TypeCode>, n: nat) returns (g: Grid)
    requires Shaped(g0, types, n)
    ensures g == FillRest(g0, types, n) && Shaped(g, types, n) && g.broken == g0.broken
  {
    g := g0;
    while g.row < n
      invariant Shaped(g, types, n) && g.broken == g0.broken
      invariant FillRest(g, types, n) == FillRest(g0, types, n)
      decreases n - g.row
    {
      WriteEffect(g, false, DefaultRow(types), types, n);
      g := Write(g, false, DefaultRow(types)).(row := g.row + 1);
    }
  }

  /** One merge took the buffer's queue from `before` to `after` and produced the given columns. */
  ghost predicate MergedFrom(after: Queue, g: Grid, before: Queue, u: seq<TimeStamp>, end: TimeStamp,
        types: seq<TypeCode>) {
    && g == MergeBuffer(u, end, types, before.Live()).0
    && after == before.Dropped(MergeBuffer(u, end, types, before.Live()).1)
    && Shaped(g, types, |u|) && !g.broken
  }

  /** Merges buffer b; the other buffers stay as they are. */
  method MergeNth(bs: seq<TableBuffer>, b: nat, u: seq<TimeStamp>, end: TimeStamp) returns (g: Grid)
    requires AllValid(bs) && AllInitialized(bs) && Separate(bs) && b < |bs|
    modifies bs[b]
    ensures AllValid(bs) && HeldTypes(bs) == old(HeldTypes(bs))
    ensures QueuesOf(bs) == old(QueuesOf(bs))[b := bs[b].Q()]
    ensures MergedFrom(bs[b].Q(), g, old(bs[b].Q()), u, end, TypesOf(SpecsOfType(old(bs[b].typ))))
  {
    forall i | 0 <= i < |bs| && i != b ensures bs[i] != bs[b] {
      if i < b { assert bs[i] != bs[b]; } else { assert bs[b] != bs[i]; }
    }
    ghost var queues := QueuesOf(bs);
    g := MergeOne(bs[b], u, end);
    OneChanged(QueuesOf(bs), queues, b, bs[b].Q());
  }

  /** Merges all buffers, in map order. */
  method MergeAll(bs: seq<TableBuffer>, u: seq<TimeStamp>, end: TimeStamp) returns (grids: seq<Grid>)
    requires AllValid(bs) && AllInitialized(bs) && Separate(bs)
    modifies bs
    ensures AllValid(bs) && HeldTypes(bs) == old(HeldTypes(bs)) && |grids| == |bs|
    ensures forall b :: 0 <= b < |bs| ==>
      MergedFrom(QueuesOf(bs)[b], grids[b], old(QueuesOf(bs))[b], u, end, TypesOf(SpecsOfType(old(HeldTypes(bs))[b])))
  {
    grids := [];
    ghost var queues, types := QueuesOf(bs), HeldTypes(bs);
    for b := 0 to |bs|
      invariant AllValid(bs) && HeldTypes(bs) == types && |grids| == b
      invariant forall i :: b <= i < |bs| ==> QueuesOf(bs)[i] == queues[i]
      invariant forall i :: 0 <= i < b ==>
        MergedFrom(QueuesOf(bs)[i], grids[i], queues[i], u, end, TypesOf(SpecsOfType(types[i])))
    {
      StillInitialized(bs, types);
      assert QueuesOf(bs)[b] == queues[b] && HeldTypes(bs)[b] == types[b];
      var g := MergeNth(bs, b, u, end);
      grids := grids + [g];
    }
  }

  lemma StillInitialized(bs: seq<TableBuffer>, types: seq<Option<seq<ColumnSpec>>>)
    requires HeldTypes(bs) == types && forall b :: 0 <= b < |types| ==> types[b].Some?
    ensures AllInitialized(bs)
  {
    assert forall b :: 0 <= b < |bs| ==> bs[b].typ == HeldTypes(bs)[b];
  }

  /** Merging every buffer is the extraction on values. */
  lemma MergedIsExtracted(before: seq<Queue>, after: seq<Queue>, types: seq<Option<seq<ColumnSpec>>>, start: TimeStamp,
        end: TimeStamp, e: Extraction, codes: seq<seq<TypeCode>>)
    requires |before| == |after| == |types| == |e.grids| && e.u == Union(before, start, end)
    requires codes == TypesOfAll(SpecsOfTypes(types))
    requires forall b :: 0 <= b < |types| ==>
      MergedFrom(after[b], e.grids[b], before[b], e.u, end, TypesOf(SpecsOfType(types[b])))
    ensures e == Extracted(before, codes, start, end) && after == AfterExtract(before, codes, start, end)
    ensures forall b :: 0 <= b < |types| ==> Shaped(e.grids[b], codes[b], |e.u|) && !e.grids[b].broken
  {
    forall b | 0 <= b < |types| ensures codes[b] == TypesOf(SpecsOfType(types[b])) {
      assert SpecsOfTypes(types)[b] == SpecsOfType(types[b]);
    }
    assert e.grids == Extracted(before, codes, start, end).grids;
  }

  /** The whole extraction: collect the timestamps, then merge every buffer. */
  method ExtractAll(bs: seq<TableBuffer>, start: TimeStamp, end: TimeStamp) returns (e: Extraction)
    requires AllValid(bs) && AllInitialized(bs) && Separate(bs)
    modifies bs
    ensures AllValid(bs) && AllInitialized(bs) && HeldTypes(bs) == old(HeldTypes(bs))
    ensures e == Extracted(old(QueuesOf(bs)), TypesOfAll(SpecsOfAll(bs)), start, end)
    ensures QueuesOf(bs) == AfterExtract(old(QueuesOf(bs)), TypesOfAll(SpecsOfAll(bs)), start, end)
    ensures |e.grids| == |bs| && forall b :: 0 <= b < |bs| ==> |e.grids[b].cols| == |SpecsOfAll(bs)[b]|
    ensures forall b :: 0 <= b < |bs| ==> Shaped(e.grids[b], TypesOfAll(SpecsOfAll(bs))[b], |e.u|) && !e.grids[b].broken
  {
    ghost var queues, types := QueuesOf(bs), HeldTypes(bs);
    var u := CollectTimestamps(bs, start, end);
    var grids := MergeAll(bs, u, end);
    e := Extraction(u, grids);
    StillInitialized(bs, types);
    MergedIsExtracted(queues, QueuesOf(bs), types, start, end, e, TypesOfAll(SpecsOfAll(bs)));
  }
}
