/** Bounds over the time spans of all buffers. */
module TimeBoundsOf {
  import opened TimeStamps
  import opened RowQueues
  import opened TableBuffers

  datatype TimeBounds = TimeBounds(
    valid: bool,
    earliestStart: TimeStamp,
    earliestEnd: TimeStamp,
    latestStart: TimeStamp,
    latestEnd: TimeStamp)

  const RESET := TimeBounds(false, MAX_TS, MAX_TS, MIN_TS, MIN_TS)

  // std::min and std::max
  function Min(a: TimeStamp, b: TimeStamp): TimeStamp { if Lt(b, a) then b else a }
  function Max(a: TimeStamp, b: TimeStamp): TimeStamp { if Lt(a, b) then b else a }

  function Widen(t: TimeBounds, span: TimeSpan): TimeBounds {
    if !span.valid then t
    else TimeBounds(true, Min(span.start, t.earliestStart), Min(span.end, t.earliestEnd),
                    Max(span.start, t.latestStart), Max(span.end, t.latestEnd))
  }

  /** The bounds of the first n spans. */
  function BoundsOfFirst(spans: seq<TimeSpan>, n: nat): TimeBounds
    requires n <= |spans|
  {
    if n == 0 then RESET else Widen(BoundsOfFirst(spans, n - 1), spans[n - 1])
  }

  function BoundsOf(spans: seq<TimeSpan>): TimeBounds { BoundsOfFirst(spans, |spans|) }

  /** The range constructor of TimeBounds. */
  method Compute(spans: seq<TimeSpan>) returns (t: TimeBounds)
    ensures t == BoundsOf(spans)
  {
    t := RESET;
    if spans == [] {
      return;
    }
    for i := 0 to |spans|
      invariant t == BoundsOfFirst(spans, i)
    {
      if spans[i].valid {
        t := TimeBounds(true, Min(spans[i].start, t.earliestStart), Min(spans[i].end, t.earliestEnd),
                        Max(spans[i].start, t.latestStart), Max(spans[i].end, t.latestEnd));
      }
    }
  }

  ghost predicate Sane(span: TimeSpan) {
    span.valid ==> InRange(span.start) && InRange(span.end) && Le(span.start, span.end)
  }

  /** t bounds the valid spans among the first n from both sides. */
  ghost predicate Bounds(spans: seq<TimeSpan>, n: nat, t: TimeBounds)
    requires n <= |spans|
  {
    forall i :: 0 <= i < n && spans[i].valid ==>
      && Le(t.earliestStart, spans[i].start) && Le(t.earliestEnd, spans[i].end)
      && Le(spans[i].start, t.latestStart) && Le(spans[i].end, t.latestEnd)
  }

  /** Every bound is the start or end of some valid span among the first n. */
  ghost predicate Attained(spans: seq<TimeSpan>, n: nat, t: TimeBounds)
    requires n <= |spans|
  {
    && (exists i :: 0 <= i < n && spans[i].valid && spans[i].start == t.earliestStart)
    && (exists i :: 0 <= i < n && spans[i].valid && spans[i].end == t.earliestEnd)
    && (exists i :: 0 <= i < n && spans[i].valid && spans[i].start == t.latestStart)
    && (exists i :: 0 <= i < n && spans[i].valid && spans[i].end == t.latestEnd)
  }

  /** t is the exact minimum and maximum of starts and ends over the valid spans among the first n. */
  ghost predicate Tight(spans: seq<TimeSpan>, n: nat, t: TimeBounds)
    requires n <= |spans|
  {
    && Bounds(spans, n, t)
    && (if t.valid then Attained(spans, n, t) else t == RESET && forall i :: 0 <= i < n ==> !spans[i].valid)
  }

  lemma {:induction false} BoundsBound(spans: seq<TimeSpan>, n: nat)
    requires n <= |spans| && forall i :: 0 <= i < |spans| ==> Sane(spans[i])
    ensures Bounds(spans, n, BoundsOfFirst(spans, n))
    ensures var t := BoundsOfFirst(spans, n);
      t.valid || (t == RESET && forall i :: 0 <= i < n ==> !spans[i].valid)
  {
    if n > 0 {
      BoundsBound(spans, n - 1);
      assert Sane(spans[n - 1]);
      WidenBounds(spans, n, BoundsOfFirst(spans, n - 1), BoundsOfFirst(spans, n));
    }
  }

  lemma WidenBounds(spans: seq<TimeSpan>, n: nat, t: TimeBounds, t': TimeBounds)
    requires 0 < n <= |spans| && Sane(spans[n - 1]) && t' == Widen(t, spans[n - 1])
    requires Bounds(spans, n - 1, t)
    requires t.valid || (t == RESET && forall i :: 0 <= i < n - 1 ==> !spans[i].valid)
    ensures Bounds(spans, n, t')
    ensures t'.valid || (t' == RESET && forall i :: 0 <= i < n ==> !spans[i].valid)
  {
    WidenCovers(t, t', spans[n - 1]);
  }

  /** A wider span bounds what the narrower one did, and the new span. */
  lemma WidenCovers(t: TimeBounds, t': TimeBounds, span: TimeSpan)
    requires t' == Widen(t, span)
    ensures Le(t'.earliestStart, t.earliestStart) && Le(t'.earliestEnd, t.earliestEnd)
    ensures Le(t.latestStart, t'.latestStart) && Le(t.latestEnd, t'.latestEnd)
    ensures span.valid ==> Le(t'.earliestStart, span.start) && Le(t'.earliestEnd, span.end)
    ensures span.valid ==> Le(span.start, t'.latestStart) && Le(span.end, t'.latestEnd)
  {
  }

  lemma {:induction false} BoundsAttained(spans: seq<TimeSpan>, n: nat)
    requires n <= |spans| && forall i :: 0 <= i < |spans| ==> Sane(spans[i])
    ensures var t := BoundsOfFirst(spans, n); if t.valid then Attained(spans, n, t) else t == RESET
  {
    if n > 0 {
      BoundsAttained(spans, n - 1);
      assert Sane(spans[n - 1]);
      WidenAttains(spans, n, BoundsOfFirst(spans, n - 1), BoundsOfFirst(spans, n));
    }
  }

  lemma WidenAttains(spans: seq<TimeSpan>, n: nat, t: TimeBounds, t': TimeBounds)
    requires 0 < n <= |spans| && Sane(spans[n - 1]) && t' == Widen(t, spans[n - 1])
    requires if t.valid then Attained(spans, n - 1, t) else t == RESET
    ensures if t'.valid then Attained(spans, n, t') else t' == RESET
  {
    if spans[n - 1].valid {
      if !t.valid {
        FirstSpan(spans[n - 1], t');
      }
      assert t'.earliestStart == t.earliestStart || t'.earliestStart == spans[n - 1].start;
    }
  }

  /** The first valid span replaces the initial bounds. */
  lemma FirstSpan(span: TimeSpan, t: TimeBounds)
    requires span.valid && Sane(span) && t == Widen(RESET, span)
    ensures t == TimeBounds(true, span.start, span.end, span.start, span.end)
  {
  }

  lemma {:induction false} BoundsTight(spans: seq<TimeSpan>, n: nat)
    requires n <= |spans| && forall i :: 0 <= i < |spans| ==> Sane(spans[i])
    ensures Tight(spans, n, BoundsOfFirst(spans, n))
  {
    BoundsBound(spans, n);
    BoundsAttained(spans, n);
  }

  /** The two spans the reactor looks at are ordered: 0 <= shortest <= longest. */
  lemma ShortestWithinLongest(spans: seq<TimeSpan>)
    requires forall i :: 0 <= i < |spans| ==> Sane(spans[i])
    ensures var t := BoundsOf(spans);
            t.valid ==> Ticks(t.earliestStart) <= Ticks(t.earliestEnd) <= Ticks(t.latestEnd)
  {
    BoundsTight(spans, |spans|);
    var t := BoundsOf(spans);
    if t.valid {
      var i :| 0 <= i < |spans| && spans[i].valid && spans[i].end == t.earliestEnd;
      assert Sane(spans[i]);
      var j :| 0 <= j < |spans| && spans[j].valid && spans[j].start == t.earliestStart;
      assert Sane(spans[j]);
      var m :| 0 <= m < |spans| && spans[m].valid && spans[m].end == t.latestEnd;
      assert Sane(spans[m]);
      TicksOrder(t.earliestStart, t.earliestEnd);
      TicksOrder(t.earliestEnd, t.latestEnd);
    }
  }

  /** The spans the buffers report. */
  function Spans(qs: seq<Queue>): (r: seq<TimeSpan>)
    ensures |r| == |qs| && forall b :: 0 <= b < |qs| ==> r[b] == SpanOf(qs[b].Live())
  {
    seq(|qs|, b requires 0 <= b < |qs| => SpanOf(qs[b].Live()))
  }
}
