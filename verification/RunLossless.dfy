/**
 * Runs in which all PVs carry the same timestamps and no laggard is given up
 * on: everything consumed has been published, unchanged and in order.
 */
module RunLossless {
  import opened Results
  import opened TimeStamps
  import opened TimeTables
  import opened RowQueues
  import opened TimeBoundsOf
  import opened Merging
  import opened Alignment
  import opened Runs
  import opened Frontiers
  import opened RunSoundness

  /** The rows a post shows for buffer b, read back from its columns. */
  function RowsOfPost(e: Extraction, b: nat): seq<Row>
    requires b < |e.grids|
  {
    seq(|e.u|, r requires 0 <= r < |e.u| => Row(e.u[r], CellsAt(e.grids[b], r)))
  }

  function CellsAt(g: Grid, r: nat): seq<Cell> {
    seq(|g.cols|, c requires 0 <= c < |g.cols| => if r < |g.cols[c]| then g.cols[c][r] else Unwritten)
  }

  predicate ShownValid(g: Grid, r: nat) { r < |g.valid| && g.valid[r] == Bool(true) }

  ghost predicate AllShownValid(e: Extraction, b: nat)
    requires b < |e.grids|
  {
    forall r :: 0 <= r < |e.u| ==> ShownValid(e.grids[b], r)
  }

  /** The rows all posts together show for buffer b. */
  function Shown(posts: seq<Extraction>, b: nat): seq<Row>
    requires forall p :: 0 <= p < |posts| ==> b < |posts[p].grids|
  {
    if posts == [] then [] else Shown(posts[..|posts| - 1], b) + RowsOfPost(posts[|posts| - 1], b)
  }

  /** The posts show exactly these rows for buffer b, all of them valid. */
  ghost predicate ShowsExactly(posts: seq<Extraction>, b: nat, rows: seq<Row>) {
    && (forall p :: 0 <= p < |posts| ==> b < |posts[p].grids|)
    && (forall p :: 0 <= p < |posts| ==> AllShownValid(posts[p], b))
    && Shown(posts, b) == rows
  }

  /** There are rows up to the time `end`. */
  ghost predicate Reaches(live: seq<Row>, end: TimeStamp) {
    live != [] && Ge(live[|live| - 1].ts, end)
  }

  /** The rows begin no earlier than the window and reach its end. */
  ghost predicate CoversWindow(live: seq<Row>, w: Window) { AllFrom(live, w.start) && Reaches(live, w.end) }

  /** A look that chooses a window sees every buffer non-empty and a shortest span of at least one period. */
  ghost predicate NoLaggards(cfg: Config, s: Sys, e: Event)
    requires |cfg.types| == |s.queues|
  {
    e.Look? && s.running && s.pending.None? && LookAt(cfg, s.queues, s.lastUpdate, e.now).Go? ==>
      && (forall b :: 0 <= b < |s.queues| ==> s.queues[b].Live() != [])
      && var t := BoundsOf(Spans(s.queues)); Ticks(t.earliestEnd) - Ticks(t.earliestStart) >= cfg.period
  }

  ghost predicate NeverLaggards(cfg: Config, s: Sys, events: seq<Event>)
    requires |cfg.types| == |s.queues|
    decreases |events|
  {
    events == [] || (NoLaggards(cfg, s, events[0]) && NeverLaggards(cfg, Step(cfg, s, events[0]), events[1..]))
  }

  /**
   * Of what was pushed into buffer b, which follows the times t, the posts show
   * the first c rows, the queue holds the others; consumed rows are below the
   * floor, and a pending window is covered from its start to its end.
   */
  ghost predicate BufferLossless(q: Queue, pushed: seq<Row>, posts: seq<Extraction>, b: nat, t: seq<TimeStamp>,
        c: nat, floor: TimeStamp, pending: Option<Window>) {
    && Stamps(pushed) <= t
    && TailOf(q.Live(), pushed) && |pushed| - |q.Live()| == c
    && StaleBefore(q, floor)
    && (pending.Some? ==> CoversWindow(q.Live(), pending.value))
    && ShowsExactly(posts, b, pushed[..c])
  }

  ghost predicate Lossless(s: Sys, floor: TimeStamp, hist: seq<seq<Row>>, t: seq<TimeStamp>, c: nat) {
    && |hist| == |s.queues| > 0
    && forall b :: 0 <= b < |hist| ==> BufferLossless(s.queues[b], hist[b], s.posts, b, t, c, floor, s.pending)
  }

  /** The number of leading rows before `end`. */
  function CountBefore(rows: seq<Row>, end: TimeStamp): (w: nat)
    ensures w <= |rows| && (forall j :: 0 <= j < w ==> Lt(rows[j].ts, end)) && (w < |rows| ==> Ge(rows[w].ts, end))
  {
    if rows == [] || Ge(rows[0].ts, end) then 0 else 1 + CountBefore(rows[1..], end)
  }

  /** Buffers that follow the same times and reach the end of the window are in lockstep in it. */
  lemma CompleteIsLockstep(cfg: Config, s: Sys, floor: TimeStamp, hist: seq<seq<Row>>, t: seq<TimeStamp>, c: nat)
    requires Sound(cfg, s) && Lossless(s, floor, hist, t, c) && s.pending.Some?
    ensures Lockstep(s.queues, s.pending.value.end, CountBefore(s.queues[0].Live(), s.pending.value.end))
  {
    var end := s.pending.value.end;
    var w := CountBefore(s.queues[0].Live(), end);
    assert QueueSound(s.queues[0], cfg.types[0]);
    forall b | 0 <= b < |s.queues|
      ensures SplitAt(s.queues[b].Live(), end, w)
      ensures forall j :: 0 <= j < w ==> s.queues[b].Live()[j].ts == s.queues[0].Live()[j].ts
    {
      assert QueueSound(s.queues[b], cfg.types[b]);
      LockstepPair(s, floor, hist, t, c, w, b);
    }
  }

  lemma LockstepPair(s: Sys, floor: TimeStamp, hist: seq<seq<Row>>, t: seq<TimeStamp>, c: nat, w: nat, b: nat)
    requires Lossless(s, floor, hist, t, c) && s.pending.Some? && b < |s.queues|
    requires AscendingRows(s.queues[0].Live()) && AscendingRows(s.queues[b].Live())
    requires w == CountBefore(s.queues[0].Live(), s.pending.value.end)
    ensures SplitAt(s.queues[b].Live(), s.pending.value.end, w)
    ensures w <= |s.queues[0].Live()| && forall j :: 0 <= j < w ==> s.queues[b].Live()[j].ts == s.queues[0].Live()[j].ts
  {
    var l0, lb := s.queues[0].Live(), s.queues[b].Live();
    SameTimes(l0, hist[0], lb, hist[b], t, c);
    SplitsAlike(l0, lb, s.pending.value.end, w);
  }

  lemma SameTimes(live: seq<Row>, pushed: seq<Row>, live': seq<Row>, pushed': seq<Row>, t: seq<TimeStamp>, c: nat)
    requires TailOf(live, pushed) && Stamps(pushed) <= t && |pushed| - |live| == c
    requires TailOf(live', pushed') && Stamps(pushed') <= t && |pushed'| - |live'| == c
    ensures forall j :: 0 <= j < |live| && j < |live'| ==> live[j].ts == live'[j].ts
  {
    forall j | 0 <= j < |live| && j < |live'| ensures live[j].ts == live'[j].ts {
      assert Stamps(pushed)[c + j] == live[j].ts && Stamps(pushed')[c + j] == live'[j].ts;
    }
  }

  lemma {:induction false} SplitsAlike(a: seq<Row>, b: seq<Row>, end: TimeStamp, w: nat)
    requires AscendingRows(a) && AscendingRows(b) && Reaches(a, end) && Reaches(b, end)
    requires forall j :: 0 <= j < |a| && j < |b| ==> a[j].ts == b[j].ts
    requires w == CountBefore(a, end)
    ensures SplitAt(b, end, w)
  {
    assert w < |a|;
    assert w < |b|;
    forall j | w <= j < |b| ensures Ge(b[j].ts, end) {
      assert b[w].ts == a[w].ts;
    }
  }

  /** No row lies before the window, so the take keeps the frontier. */
  lemma LosslessNoneEarly(cfg: Config, s: Sys, floor: TimeStamp, hist: seq<seq<Row>>, t: seq<TimeStamp>, c: nat,
        e: Event)
    requires Sound(cfg, s) && Lossless(s, floor, hist, t, c)
    ensures NoneEarly(s, e) && Kept(s, e)
    ensures s.pending.Some? ==> AllReady(s.queues, cfg.types, s.pending.value.start)
  {
    SoundIsFit(cfg, s);
    forall b | s.pending.Some? && 0 <= b < |s.queues| ensures AllFrom(s.queues[b].Live(), s.pending.value.start) {
      assert BufferLossless(s.queues[b], hist[b], s.posts, b, t, c, floor, s.pending);
    }
    NoneEarlyIsKept(cfg, s, e);
  }

  lemma {:induction false} TakeIsLossless(cfg: Config, s: Sys, floor: TimeStamp, hist: seq<seq<Row>>, t: seq<TimeStamp>,
        c: nat, s': Sys, end: TimeStamp, now: int, c': nat)
    requires Sound(cfg, s) && Lossless(s, floor, hist, t, c) && s.pending.Some? && Le(floor, s.pending.value.start)
    requires end == s.pending.value.end && c' == c + CountBefore(s.queues[0].Live(), end)
    requires s' == Taken(cfg, s, s.pending.value, now)
    ensures Lossless(s', end, hist, t, c')
  {
    var w, win := CountBefore(s.queues[0].Live(), end), s.pending.value;
    CompleteIsLockstep(cfg, s, floor, hist, t, c);
    LosslessNoneEarly(cfg, s, floor, hist, t, c, Take(now));
    AllStaleBefore(s, floor, hist, t, c, win.start);
    StartsBeforeEnd(floor, win.start, end);
    forall b | 0 <= b < |hist| ensures BufferLossless(s'.queues[b], hist[b], s'.posts, b, t, c', end, s'.pending) {
      assert BufferLossless(s.queues[b], hist[b], s.posts, b, t, c, floor, s.pending);
      TakeOne(s.queues, cfg.types, win, floor, hist[b], s.posts, t, c, w, b, c', s'.posts[|s.posts|], s'.queues[b]);
    }
  }

  lemma StartsBeforeEnd(floor: TimeStamp, start: TimeStamp, end: TimeStamp)
    requires Le(floor, start) && Lt(start, end)
    ensures Le(floor, end)
  {
  }

  lemma TakeOne(qs: seq<Queue>, types: seq<seq<TypeCode>>, win: Window, floor: TimeStamp, pushed: seq<Row>,
        posts: seq<Extraction>, t: seq<TimeStamp>, c: nat, w: nat, b: nat, c': nat, e: Extraction, q': Queue)
    requires AllReady(qs, types, win.start) && b < |qs| && Lockstep(qs, win.end, w) && c' == c + w
    requires forall i :: 0 <= i < |qs| ==> StaleBefore(qs[i], win.start)
    requires BufferLossless(qs[b], pushed, posts, b, t, c, floor, Some(win)) && Le(floor, win.end)
    requires e == Extracted(qs, types, win.start, win.end) && q' == AfterExtract(qs, types, win.start, win.end)[b]
    ensures BufferLossless(q', pushed, posts + [e], b, t, c', win.end, None)
  {
    LockstepTake(qs, types, win, w, b, e, q');
    TakenBuffer(qs[b], q', pushed, posts, e, b, t, c, floor, Some(win), w, c');
  }

  /** An extraction in lockstep copies the rows of the window and keeps the others. */
  lemma LockstepTake(qs: seq<Queue>, types: seq<seq<TypeCode>>, win: Window, w: nat, b: nat, e: Extraction, q': Queue)
    requires AllReady(qs, types, win.start) && Lockstep(qs, win.end, w) && b < |qs|
    requires forall i :: 0 <= i < |qs| ==> StaleBefore(qs[i], win.start)
    requires e == Extracted(qs, types, win.start, win.end) && q' == AfterExtract(qs, types, win.start, win.end)[b]
    ensures SplitAt(qs[b].Live(), win.end, w) && b < |e.grids| && w == |e.u|
    ensures forall r :: 0 <= r < w ==> e.u[r] == qs[b].Live()[r].ts && Copied(e.grids[b], r, qs[b].Live()[r])
    ensures q'.Live() == qs[b].Live()[w..]
    ensures forall x :: x in q'.Stale() ==> x in qs[b].Stale() || x in qs[b].Live()[..w]
  {
    var live := qs[b].Live();
    assert SplitAt(live, win.end, w) && SplitAt(qs[0].Live(), win.end, w);
    LockstepLossless(qs, types, win.start, win.end, w);
    SameStamps(e.u, qs[0].Live(), live, w);
    ExtractFrontier(qs, types, win.start, win.end, b);
    SuffixLength(live, MergeBuffer(e.u, win.end, types[b], live).1, w);
  }

  lemma SuffixLength<T>(s: seq<T>, c: nat, w: nat)
    requires c <= |s| && w <= |s| && s[c..] == s[w..]
    ensures c == w
  {
    assert |s[c..]| == |s| - c && |s[w..]| == |s| - w;
  }

  lemma SameStamps(u: seq<TimeStamp>, first: seq<Row>, live: seq<Row>, w: nat)
    requires w <= |first| && w <= |live| && u == Stamps(first[..w])
    requires forall j :: 0 <= j < w ==> live[j].ts == first[j].ts
    ensures |u| == w && forall r :: 0 <= r < w ==> u[r] == live[r].ts
  {
  }

  lemma TakenBuffer(q: Queue, q': Queue, pushed: seq<Row>, posts: seq<Extraction>, e: Extraction, b: nat,
        t: seq<TimeStamp>, c: nat, floor: TimeStamp, pending: Option<Window>, w: nat, c': nat)
    requires BufferLossless(q, pushed, posts, b, t, c, floor, pending) && pending.Some? && Le(floor, pending.value.end)
    requires SplitAt(q.Live(), pending.value.end, w)
    requires b < |e.grids| && w == |e.u| && c' == c + w
    requires forall r :: 0 <= r < w ==> e.u[r] == q.Live()[r].ts && Copied(e.grids[b], r, q.Live()[r])
    requires q'.Live() == q.Live()[w..]
    requires forall x :: x in q'.Stale() ==> x in q.Stale() || x in q.Live()[..w]
    ensures BufferLossless(q', pushed, posts + [e], b, t, c', pending.value.end, None)
  {
    LockstepShows(e, b, q.Live(), w);
    ShowsOneMore(posts, e, b, pushed, c, w, q.Live());
    TakenStaleBefore(q, q', floor, pending.value.end, w);
  }

  lemma AllStaleBefore(s: Sys, floor: TimeStamp, hist: seq<seq<Row>>, t: seq<TimeStamp>, c: nat, start: TimeStamp)
    requires Lossless(s, floor, hist, t, c) && Le(floor, start)
    ensures forall b :: 0 <= b < |s.queues| ==> StaleBefore(s.queues[b], start)
  {
    forall b | 0 <= b < |s.queues| ensures StaleBefore(s.queues[b], start) {
      assert BufferLossless(s.queues[b], hist[b], s.posts, b, t, c, floor, s.pending);
      StaleStaysBefore(s.queues[b], floor, start);
    }
  }

  lemma LockstepShows(e: Extraction, b: nat, live: seq<Row>, w: nat)
    requires b < |e.grids| && w == |e.u| <= |live|
    requires forall r :: 0 <= r < w ==> e.u[r] == live[r].ts && Copied(e.grids[b], r, live[r])
    ensures AllShownValid(e, b) && RowsOfPost(e, b) == live[..w]
  {
    forall r | 0 <= r < w ensures ShownValid(e.grids[b], r) {
      assert Copied(e.grids[b], r, live[r]);
    }
    forall r | 0 <= r < w ensures RowsOfPost(e, b)[r] == live[r] {
      assert Copied(e.grids[b], r, live[r]);
      assert CellsAt(e.grids[b], r) == live[r].cells;
    }
  }

  lemma ShowsOneMore(posts: seq<Extraction>, e: Extraction, b: nat, pushed: seq<Row>, c: nat, w: nat, live: seq<Row>)
    requires TailOf(live, pushed) && |pushed| - |live| == c && w <= |live|
    requires ShowsExactly(posts, b, pushed[..c]) && b < |e.grids| && AllShownValid(e, b)
    requires RowsOfPost(e, b) == live[..w]
    ensures ShowsExactly(posts + [e], b, pushed[..c + w])
  {
    assert (posts + [e])[..|posts|] == posts;
    assert pushed[..c + w] == pushed[..c] + live[..w];
  }

  lemma TakenStaleBefore(q: Queue, q': Queue, start: TimeStamp, end: TimeStamp, w: nat)
    requires StaleBefore(q, start) && SplitAt(q.Live(), end, w) && Le(start, end)
    requires forall x :: x in q'.Stale() ==> x in q.Stale() || x in q.Live()[..w]
    ensures StaleBefore(q', end)
  {
    forall x | x in q'.Stale() ensures Lt(x.ts, end) {
      if x !in q.Stale() {
        var j :| 0 <= j < w && q.Live()[..w][j] == x;
      }
    }
  }

  lemma LookIsLossless(cfg: Config, s: Sys, floor: TimeStamp, hist: seq<seq<Row>>, t: seq<TimeStamp>, c: nat, e: Event,
        s': Sys)
    requires Inv(cfg, s, floor) && Lossless(s, floor, hist, t, c) && e.Look? && Admissible(cfg, s, e)
    requires NoLaggards(cfg, s, e) && s' == Step(cfg, s, e)
    ensures Lossless(s', floor, hist, t, c)
  {
    assert s'.queues == s.queues && s'.posts == s.posts;
    forall b | 0 <= b < |hist| ensures BufferLossless(s.queues[b], hist[b], s.posts, b, t, c, floor, s'.pending) {
      assert BufferLossless(s.queues[b], hist[b], s.posts, b, t, c, floor, s.pending);
      if s.pending.None? && s'.pending.Some? {
        ChosenWindow(cfg, s, e.now);
        LastRowReaches(cfg, s, e.now, b);
      }
    }
  }

  lemma StaleStaysBefore(q: Queue, floor: TimeStamp, floor': TimeStamp)
    requires StaleBefore(q, floor) && Le(floor, floor')
    ensures StaleBefore(q, floor')
  {
  }

  /** With no laggards, the last row of every buffer is at or behind the end of the chosen window. */
  lemma LastRowReaches(cfg: Config, s: Sys, now: int, b: nat)
    requires Sound(cfg, s) && b < |s.queues| && s.queues[b].Live() != []
    requires LookAt(cfg, s.queues, s.lastUpdate, now).Go?
    requires NoWrap(LookAt(cfg, s.queues, s.lastUpdate, now).window.start, cfg.period)
    requires var t := BoundsOf(Spans(s.queues)); Ticks(t.earliestEnd) - Ticks(t.earliestStart) >= cfg.period
    ensures Reaches(s.queues[b].Live(), LookAt(cfg, s.queues, s.lastUpdate, now).window.end)
  {
    var w, t := LookAt(cfg, s.queues, s.lastUpdate, now).window, BoundsOf(Spans(s.queues));
    assert ChosenEnd(cfg, t, w) by { ChosenWindow(cfg, s, now); }
    EarliestEnd(cfg, s, b);
    var live := s.queues[b].Live();
    AddTicksExact(w.start, cfg.period);
    LaterThan(w.end, t.earliestEnd, live[|live| - 1].ts);
  }

  ghost predicate ChosenEnd(cfg: Config, t: TimeBounds, w: Window) {
    w.start == t.earliestStart && InRange(w.start) && w.start.utag == 0 && w.end == AddTicks(w.start, cfg.period)
  }

  lemma EarliestEnd(cfg: Config, s: Sys, b: nat)
    requires Sound(cfg, s) && b < |s.queues| && s.queues[b].Live() != []
    ensures var live, t := s.queues[b].Live(), BoundsOf(Spans(s.queues));
      InRange(t.earliestEnd) && InRange(live[|live| - 1].ts) && Le(t.earliestEnd, Untagged(live[|live| - 1].ts))
  {
    var spans, t := Spans(s.queues), BoundsOf(Spans(s.queues));
    SpansSane(cfg, s);
    BoundsTight(spans, |spans|);
    assert spans[b].valid && QueueSound(s.queues[b], cfg.types[b]);
    var i :| 0 <= i < |spans| && spans[i].valid && spans[i].end == t.earliestEnd;
    assert Sane(spans[i]);
  }

  lemma LaterThan(end: TimeStamp, earliest: TimeStamp, last: TimeStamp)
    requires InRange(end) && InRange(earliest) && InRange(last) && end.utag == 0
    requires Ticks(end) <= Ticks(earliest) && Le(earliest, Untagged(last))
    ensures Ge(last, end)
  {
    TicksOrder(earliest, end);
    TicksOrder(end, earliest);
  }

  lemma PushIsLossless(cfg: Config, s: Sys, floor: TimeStamp, hist: seq<seq<Row>>, t: seq<TimeStamp>, c: nat, e: Event,
        s': Sys, hist': seq<seq<Row>>)
    requires Inv(cfg, s, floor) && Lossless(s, floor, hist, t, c) && e.Push? && Admissible(cfg, s, e)
    requires e.b < |hist| ==> Stamps(hist[e.b] + e.rows) <= t
    requires s' == Step(cfg, s, e) && hist' == NextHist(hist, e)
    ensures Lossless(s', floor, hist', t, c)
  {
    forall b | 0 <= b < |hist| ensures BufferLossless(s'.queues[b], hist'[b], s'.posts, b, t, c, floor, s'.pending) {
      assert BufferLossless(s.queues[b], hist[b], s.posts, b, t, c, floor, s.pending);
      if e.b == b {
        assert QueueSound(s.queues[b], cfg.types[b]);
        PushedBuffer(s.queues[b], hist[b], s.posts, b, t, c, floor, s.pending, e.rows);
      }
    }
  }

  lemma PushedBuffer(q: Queue, pushed: seq<Row>, posts: seq<Extraction>, b: nat, t: seq<TimeStamp>, c: nat,
        floor: TimeStamp, pending: Option<Window>, rows: seq<Row>)
    requires BufferLossless(q, pushed, posts, b, t, c, floor, pending) && q.Ok() && rows != []
    requires Stamps(pushed + rows) <= t && AscendingRows(q.Live() + rows)
    ensures BufferLossless(q.Pushed(rows), pushed + rows, posts, b, t, c, floor, pending)
  {
    q.PushedLive(rows);
    TailExtended(q.Live(), pushed, rows);
    assert (pushed + rows)[..c] == pushed[..c];
    if pending.Some? { StillCovers(q.Live(), rows, pending.value); }
  }

  /** Rows that come behind others cannot lie before the window. */
  lemma StillCovers(live: seq<Row>, rows: seq<Row>, w: Window)
    requires CoversWindow(live, w) && rows != [] && AscendingRows(live + rows)
    ensures CoversWindow(live + rows, w)
  {
    var all := live + rows;
    assert Lt(all[|live| - 1].ts, all[|all| - 1].ts);
    forall j | 0 <= j < |all| ensures Ge(all[j].ts, w.start) {
      assert Ge(all[0].ts, w.start) && (j > 0 ==> Lt(all[0].ts, all[j].ts));
    }
  }

  /** The rows consumed after a step. */
  function NextCount(cfg: Config, s: Sys, c: nat, e: Event): nat
    requires |cfg.types| == |s.queues| > 0
  {
    if e.Take? && s.running && s.pending.Some? then c + CountBefore(s.queues[0].Live(), s.pending.value.end) else c
  }

  /**
   * Lossless lockstep runs: as long as all PVs follow one sequence of times
   * and no laggard is given up on, the posts together show, for every buffer,
   * exactly the rows consumed so far, all valid, unchanged and in order.
   */
  lemma {:induction false} RunIsLossless(cfg: Config, s: Sys, floor: TimeStamp, hist: seq<seq<Row>>,
        t: seq<TimeStamp>, c: nat, events: seq<Event>)
    returns (c': nat)
    requires Inv(cfg, s, floor) && Lossless(s, floor, hist, t, c)
    requires Orderly(cfg, s, floor, events) && NeverLaggards(cfg, s, events)
    requires forall b :: 0 <= b < |hist| ==> Stamps(hist[b] + PushedRows(events, b)) <= t
    ensures Lossless(Run(cfg, s, events), FloorAfter(cfg, s, floor, events), HistAfter(hist, events), t, c')
    decreases |events|
  {
    if events == [] {
      c' := c;
    } else {
      var e := events[0];
      var s1, floor1 := Step(cfg, s, e), NextFloor(s, floor, e);
      var hist1, c1 := NextHist(hist, e), NextCount(cfg, s, c, e);
      HistFollows(hist, events, t, hist1);
      StepIsLossless(cfg, s, floor, hist, t, c, e, s1, floor1, hist1, c1);
      LosslessNoneEarly(cfg, s, floor, hist, t, c, e);
      StepKeepsInv(cfg, s, floor, e);
      c' := RunIsLossless(cfg, s1, floor1, hist1, t, c1, events[1..]);
    }
  }

  lemma {:induction false} HistFollows(hist: seq<seq<Row>>, events: seq<Event>, t: seq<TimeStamp>, hist': seq<seq<Row>>)
    requires events != [] && hist' == NextHist(hist, events[0])
    requires forall b :: 0 <= b < |hist| ==> Stamps(hist[b] + PushedRows(events, b)) <= t
    ensures forall b :: 0 <= b < |hist| ==> Stamps(hist'[b]) <= t && Stamps(hist'[b] + PushedRows(events[1..], b)) <= t
  {
    forall b | 0 <= b < |hist| ensures Stamps(hist'[b]) <= t && Stamps(hist'[b] + PushedRows(events[1..], b)) <= t {
      StampsPrefix(hist[b], events, t, b);
    }
  }

  lemma {:induction false} StampsPrefix(rows: seq<Row>, events: seq<Event>, t: seq<TimeStamp>, b: nat)
    requires events != [] && Stamps(rows + PushedRows(events, b)) <= t
    ensures var rows' := if events[0].Push? && events[0].b == b then rows + events[0].rows else rows;
            Stamps(rows') <= t && Stamps(rows' + PushedRows(events[1..], b)) <= t
  {
    var rows' := if events[0].Push? && events[0].b == b then rows + events[0].rows else rows;
    assert rows + PushedRows(events, b) == rows' + PushedRows(events[1..], b);
    assert Stamps(rows') <= Stamps(rows' + PushedRows(events[1..], b));
  }

  lemma StepIsLossless(cfg: Config, s: Sys, floor: TimeStamp, hist: seq<seq<Row>>, t: seq<TimeStamp>, c: nat, e: Event,
                       s': Sys, floor': TimeStamp, hist': seq<seq<Row>>, c': nat)
    requires Inv(cfg, s, floor) && Lossless(s, floor, hist, t, c) && Admissible(cfg, s, e)
    requires NoLaggards(cfg, s, e)
    requires e.Push? && e.b < |hist| ==> Stamps(hist[e.b] + e.rows) <= t
    requires s' == Step(cfg, s, e) && floor' == NextFloor(s, floor, e)
    requires hist' == NextHist(hist, e) && c' == NextCount(cfg, s, c, e)
    ensures Lossless(s', floor', hist', t, c')
  {
    if e.Push? {
      PushIsLossless(cfg, s, floor, hist, t, c, e, s', hist');
      assert floor' == floor && c' == c;
    } else if e.Look? {
      LookIsLossless(cfg, s, floor, hist, t, c, e, s');
      assert hist' == hist && floor' == floor && c' == c;
    } else {
      TakeStep(cfg, s, floor, hist, t, c, e, s', floor', c');
      assert hist' == hist;
    }
  }

  lemma TakeStep(cfg: Config, s: Sys, floor: TimeStamp, hist: seq<seq<Row>>, t: seq<TimeStamp>, c: nat, e: Event,
        s': Sys, floor': TimeStamp, c': nat)
    requires Inv(cfg, s, floor) && Lossless(s, floor, hist, t, c) && e.Take?
    requires s' == Step(cfg, s, e) && floor' == NextFloor(s, floor, e) && c' == NextCount(cfg, s, c, e)
    ensures Lossless(s', floor', hist, t, c')
  {
    if s.running && s.pending.Some? {
      TakeResult(cfg, s, e.now);
      TakeIsLossless(cfg, s, floor, hist, t, c, s', floor', e.now, c');
    } else {
      assert s' == s && floor' == floor && c' == c;
    }
  }

  /** The same from start-up: what the posts show of a PV is exactly the consumed part of what was pushed for it. */
  lemma {:induction false} LockstepRunLosesNothing(cfg: Config, now: int, events: seq<Event>, t: seq<TimeStamp>, b: nat)
    requires cfg.period > 0 && b < |cfg.types| && Orderly(cfg, Initial(cfg, now), MIN_TS, events)
    requires NeverLaggards(cfg, Initial(cfg, now), events)
    requires forall i :: 0 <= i < |cfg.types| ==> Stamps(PushedRows(events, i)) <= t
    ensures var s := Run(cfg, Initial(cfg, now), events);
      && (forall p :: 0 <= p < |s.posts| ==> b < |s.posts[p].grids| && AllShownValid(s.posts[p], b))
      && Shown(s.posts, b) + s.queues[b].Live() == PushedRows(events, b)
  {
    var none: seq<seq<Row>> := seq(|cfg.types|, _ => []);
    StartIsLossless(cfg, now, none, t);
    InitialInv(cfg, now);
    WholeRun(cfg, Initial(cfg, now), MIN_TS, none, t, events, b, Run(cfg, Initial(cfg, now), events));
  }

  lemma {:induction false} WholeRun(cfg: Config, s0: Sys, floor: TimeStamp, none: seq<seq<Row>>, t: seq<TimeStamp>,
        events: seq<Event>, b: nat, s: Sys)
    requires Inv(cfg, s0, floor) && Lossless(s0, floor, none, t, 0) && b < |none|
    requires forall i :: 0 <= i < |none| ==> none[i] == []
    requires Orderly(cfg, s0, floor, events) && NeverLaggards(cfg, s0, events)
    requires forall i :: 0 <= i < |none| ==> Stamps(PushedRows(events, i)) <= t
    requires s == Run(cfg, s0, events)
    ensures forall p :: 0 <= p < |s.posts| ==> b < |s.posts[p].grids| && AllShownValid(s.posts[p], b)
    ensures Shown(s.posts, b) + s.queues[b].Live() == PushedRows(events, b)
  {
    forall i | 0 <= i < |none| ensures Stamps(none[i] + PushedRows(events, i)) <= t {
      assert none[i] + PushedRows(events, i) == PushedRows(events, i);
    }
    var c := RunIsLossless(cfg, s0, floor, none, t, 0, events);
    HistIsPushed(none, events, b);
    FinishRun(s, FloorAfter(cfg, s0, floor, events), HistAfter(none, events), t, c, b, PushedRows(events, b));
  }

  lemma {:induction false} FinishRun(s: Sys, floor: TimeStamp, hist: seq<seq<Row>>, t: seq<TimeStamp>, c: nat,
        b: nat, pushed: seq<Row>)
    requires Lossless(s, floor, hist, t, c) && b < |hist| && hist[b] == pushed
    ensures forall p :: 0 <= p < |s.posts| ==> b < |s.posts[p].grids| && AllShownValid(s.posts[p], b)
    ensures Shown(s.posts, b) + s.queues[b].Live() == pushed
  {
    FinishLossless(s.queues[b], pushed, s.posts, b, t, c, floor, s.pending);
  }

  lemma {:induction false} FinishLossless(q: Queue, pushed: seq<Row>, posts: seq<Extraction>, b: nat,
        t: seq<TimeStamp>, c: nat, floor: TimeStamp, pending: Option<Window>)
    requires BufferLossless(q, pushed, posts, b, t, c, floor, pending)
    ensures forall p :: 0 <= p < |posts| ==> b < |posts[p].grids| && AllShownValid(posts[p], b)
    ensures Shown(posts, b) + q.Live() == pushed
  {
    assert pushed == pushed[..c] + pushed[c..];
  }

  lemma StartIsLossless(cfg: Config, now: int, none: seq<seq<Row>>, t: seq<TimeStamp>)
    requires cfg.period > 0 && |none| == |cfg.types| > 0 && forall b :: 0 <= b < |none| ==> none[b] == []
    ensures Lossless(Initial(cfg, now), MIN_TS, none, t, 0)
  {
    InitialInv(cfg, now);
    assert Stamps([]) <= t;
  }
}
