/** What every published table says about the updates that were pushed. */
module RunSoundness {
  import opened Results
  import opened TimeStamps
  import opened TimeTables
  import opened RowQueues
  import opened Merging
  import opened MergeTrace
  import opened Alignment
  import opened Runs
  import opened Frontiers

  /** The rows pushed into buffer b, in order. */
  function PushedRows(events: seq<Event>, b: nat): seq<Row> {
    if events == [] then []
    else (if events[0].Push? && events[0].b == b then events[0].rows else []) + PushedRows(events[1..], b)
  }

  /** Output row r was passed over: its valid flag has never been stored to. */
  ghost predicate Untouched(g: Grid, r: nat) { r < |g.valid| && g.valid[r] == Unwritten }

  /**
   * Output row r is blank, or a valid copy of a pushed row with exactly that
   * timestamp, or untouched.
   */
  ghost predicate RowSound(e: Extraction, b: nat, r: nat, types: seq<TypeCode>, pushed: seq<Row>)
    requires b < |e.grids| && r < |e.u|
  {
    || Blank(e.grids[b], r, types)
    || (exists j :: 0 <= j < |pushed| && pushed[j].ts == e.u[r] && Copied(e.grids[b], r, pushed[j]))
    || Untouched(e.grids[b], r)
  }

  ghost predicate PostSound(e: Extraction, types: seq<seq<TypeCode>>, hist: seq<seq<Row>>) {
    && |e.grids| == |types| == |hist|
    && (forall b :: 0 <= b < |hist| ==> Shaped(e.grids[b], types[b], |e.u|))
    && forall b, r :: 0 <= b < |hist| && 0 <= r < |e.u| ==> RowSound(e, b, r, types[b], hist[b])
  }

  /** What is still queued is the tail of what was pushed; every post is sound. */
  ghost predicate HistInv(cfg: Config, s: Sys, hist: seq<seq<Row>>) {
    && |hist| == |s.queues| == |cfg.types|
    && (forall b :: 0 <= b < |hist| ==> TailOf(s.queues[b].Live(), hist[b]))
    && (forall p :: 0 <= p < |s.posts| ==> PostSound(s.posts[p], cfg.types, hist))
  }

  ghost predicate TailOf(live: seq<Row>, pushed: seq<Row>) {
    |live| <= |pushed| && live == pushed[|pushed| - |live|..]
  }

  function NextHist(hist: seq<seq<Row>>, e: Event): seq<seq<Row>> {
    if e.Push? && e.b < |hist| then hist[e.b := hist[e.b] + e.rows] else hist
  }

  lemma SoundGrows(e: Extraction, types: seq<seq<TypeCode>>, hist: seq<seq<Row>>, event: Event)
    requires PostSound(e, types, hist)
    ensures PostSound(e, types, NextHist(hist, event))
  {
    var hist' := NextHist(hist, event);
    forall b, r | 0 <= b < |hist| && 0 <= r < |e.u| ensures RowSound(e, b, r, types[b], hist'[b]) {
      assert RowSound(e, b, r, types[b], hist[b]);
      if !Blank(e.grids[b], r, types[b]) && !Untouched(e.grids[b], r) {
        var j :| 0 <= j < |hist[b]| && hist[b][j].ts == e.u[r] && Copied(e.grids[b], r, hist[b][j]);
        assert hist'[b][j] == hist[b][j];
      }
    }
  }

  /** A fresh extraction is sound for the queues it was made from. */
  lemma ExtractionSound(cfg: Config, s: Sys, hist: seq<seq<Row>>, w: Window, e: Extraction)
    requires Sound(cfg, s) && HistInv(cfg, s, hist) && e == Extracted(s.queues, cfg.types, w.start, w.end)
    ensures PostSound(e, cfg.types, hist)
  {
    forall b | 0 <= b < |hist| ensures Shaped(e.grids[b], cfg.types[b], |e.u|) {
      assert QueueSound(s.queues[b], cfg.types[b]);
      MergeShape(e.u, w.end, cfg.types[b], s.queues[b].Live());
    }
    forall b, r | 0 <= b < |hist| && 0 <= r < |e.u| ensures RowSound(e, b, r, cfg.types[b], hist[b]) {
      assert QueueSound(s.queues[b], cfg.types[b]);
      TraceExact(e.u, w.end, cfg.types[b], s.queues[b].Live(), r);
      EndedRowSound(e, b, r, w.end, cfg.types[b], s.queues[b].Live(), hist[b]);
    }
  }

  lemma {:induction false} EndedRowSound(e: Extraction, b: nat, r: nat, end: TimeStamp, types: seq<TypeCode>,
        live: seq<Row>, pushed: seq<Row>)
    requires b < |e.grids| && r < |e.u| && TailOf(live, pushed) && RowEnds(e.u, end, types, live, e.grids[b], r)
    ensures RowSound(e, b, r, types, pushed)
  {
    if Matched(e.u, end, live, r) {
      var j :| 0 <= j < |live| && Matches(e.u, end, live, j, r);
      assert Copied(e.grids[b], r, live[j]);
      assert pushed[|pushed| - |live| + j] == live[j];
    }
  }

  lemma StepKeepsHist(cfg: Config, s: Sys, hist: seq<seq<Row>>, e: Event)
    requires Sound(cfg, s) && HistInv(cfg, s, hist) && Admissible(cfg, s, e)
    ensures HistInv(cfg, Step(cfg, s, e), NextHist(hist, e))
  {
    var s', hist' := Step(cfg, s, e), NextHist(hist, e);
    if e.Take? && s.running && s.pending.Some? {
      ExtractionSound(cfg, s, hist, s.pending.value, s'.posts[|s.posts|]);
    }
    forall p | 0 <= p < |s'.posts| ensures PostSound(s'.posts[p], cfg.types, hist') {
      if p < |s.posts| { SoundGrows(s.posts[p], cfg.types, hist, e); }
    }
    forall b | 0 <= b < |hist| ensures TailOf(s'.queues[b].Live(), hist'[b]) {
      StepKeepsTail(cfg, s, hist, e, b);
    }
  }

  lemma StepKeepsTail(cfg: Config, s: Sys, hist: seq<seq<Row>>, e: Event, b: nat)
    requires Sound(cfg, s) && HistInv(cfg, s, hist) && Admissible(cfg, s, e) && b < |hist|
    ensures TailOf(Step(cfg, s, e).queues[b].Live(), NextHist(hist, e)[b])
  {
    var live, pushed, live' := s.queues[b].Live(), hist[b], Step(cfg, s, e).queues[b].Live();
    match e
    case Push(i, rows) =>
      if i == b {
        PushedBehind(cfg, s, b, rows);
        TailExtended(live, pushed, rows);
      }
    case Look(_) =>
      assert Step(cfg, s, e).queues == s.queues;
    case Take(now) =>
      if s.running && s.pending.Some? {
        TakeResult(cfg, s, now);
        TakeLeavesSuffix(cfg, s, now, b);
        TailOfTail(live', live, pushed);
      }
  }

  lemma PushedBehind(cfg: Config, s: Sys, b: nat, rows: seq<Row>)
    requires Sound(cfg, s) && b < |s.queues| && rows != []
    ensures Step(cfg, s, Push(b, rows)).queues[b].Live() == s.queues[b].Live() + rows
  {
    assert QueueSound(s.queues[b], cfg.types[b]);
    s.queues[b].PushedLive(rows);
  }

  lemma TailExtended(live: seq<Row>, pushed: seq<Row>, rows: seq<Row>)
    requires TailOf(live, pushed)
    ensures TailOf(live + rows, pushed + rows)
  {
  }

  lemma TailOfTail(l': seq<Row>, live: seq<Row>, pushed: seq<Row>)
    requires TailOf(l', live) && TailOf(live, pushed)
    ensures TailOf(l', pushed)
  {
  }

  function HistAfter(hist: seq<seq<Row>>, events: seq<Event>): seq<seq<Row>>
    decreases |events|
  {
    if events == [] then hist else HistAfter(NextHist(hist, events[0]), events[1..])
  }

  lemma {:induction false} RunKeepsHist(cfg: Config, s: Sys, hist: seq<seq<Row>>, events: seq<Event>)
    requires Sound(cfg, s) && HistInv(cfg, s, hist) && WellFormed(cfg, s, events)
    ensures HistInv(cfg, Run(cfg, s, events), HistAfter(hist, events))
    decreases |events|
  {
    if events != [] {
      StepKeepsSound(cfg, s, events[0]);
      StepKeepsHist(cfg, s, hist, events[0]);
      RunKeepsHist(cfg, Step(cfg, s, events[0]), NextHist(hist, events[0]), events[1..]);
    }
  }

  lemma {:induction false} HistIsPushed(hist: seq<seq<Row>>, events: seq<Event>, b: nat)
    requires b < |hist|
    ensures |HistAfter(hist, events)| == |hist| && HistAfter(hist, events)[b] == hist[b] + PushedRows(events, b)
    decreases |events|
  {
    if events != [] {
      HistIsPushed(NextHist(hist, events[0]), events[1..], b);
    }
  }

  /**
   * Soundness of every run from start-up, under every interleaving: each cell
   * row that any post marks valid is a copy of a row that was pushed into that
   * buffer with exactly the published timestamp, each other row is blank or
   * untouched, untouched only if some take found a row from before its window,
   * and what a buffer still holds is the tail of what was pushed into it.
   */
  lemma {:induction false} PublishedIsPushed(cfg: Config, now: int, events: seq<Event>, p: nat, b: nat, r: nat)
    requires cfg.period > 0 && WellFormed(cfg, Initial(cfg, now), events) && b < |cfg.types|
    ensures var s := Run(cfg, Initial(cfg, now), events);
      && TailOf(s.queues[b].Live(), PushedRows(events, b))
      && (p < |s.posts| && r < |s.posts[p].u| ==>
            b < |s.posts[p].grids| && RowSound(s.posts[p], b, r, cfg.types[b], PushedRows(events, b)) &&
            (NeverEarly(cfg, Initial(cfg, now), events) ==> !Untouched(s.posts[p].grids[b], r)))
  {
    var s := Run(cfg, Initial(cfg, now), events);
    InitialIsSound(cfg, now);
    FlagsWrittenIff(cfg, Initial(cfg, now), events);
    var hist := FromStart(cfg, now, events);
    assert TailOf(s.queues[b].Live(), hist[b]);
    if p < |s.posts| && r < |s.posts[p].u| {
      assert PostSound(s.posts[p], cfg.types, hist);
      if AllFlagged(s.posts) {
        assert PostFlagged(s.posts[p]) && FlagsWritten(s.posts[p].grids[b], |s.posts[p].u|);
      }
    }
  }

  lemma FromStart(cfg: Config, now: int, events: seq<Event>) returns (hist: seq<seq<Row>>)
    requires cfg.period > 0 && WellFormed(cfg, Initial(cfg, now), events)
    ensures HistInv(cfg, Run(cfg, Initial(cfg, now), events), hist)
    ensures forall b :: 0 <= b < |hist| ==> hist[b] == PushedRows(events, b)
  {
    var none: seq<seq<Row>> := seq(|cfg.types|, _ => []);
    InitialIsSound(cfg, now);
    RunKeepsHist(cfg, Initial(cfg, now), none, events);
    hist := HistAfter(none, events);
    forall b | 0 <= b < |hist| ensures hist[b] == PushedRows(events, b) {
      HistIsPushed(none, events, b);
    }
  }

  function LiveRows(qs: seq<Queue>): (r: seq<seq<Row>>)
    ensures |r| == |qs| && forall b :: 0 <= b < |qs| ==> r[b] == qs[b].Live()
  {
    seq(|qs|, b requires 0 <= b < |qs| => qs[b].Live())
  }

  /** Rows pushed before the reactor started are as good a beginning as none, as long as each buffer's ascend. */
  lemma StartWithRows(cfg: Config, s: Sys)
    requires cfg.period > 0 && |cfg.types| == |s.queues| && s.pending.None? && s.posts == []
    requires forall b :: 0 <= b < |s.queues| ==>
      && s.queues[b].Ok() && s.queues[b].inner == 0 && AscendingRows(s.queues[b].Live())
      && Wide(s.queues[b].Live(), |cfg.types[b]|) && RowsInRange(s.queues[b].Live())
    ensures Inv(cfg, s, MIN_TS) && HistInv(cfg, s, LiveRows(s.queues))
  {
    forall b | 0 <= b < |s.queues| ensures QueueInv(s.queues[b], cfg.types[b], MIN_TS) {
      assert s.queues[b].Stale() == [];
    }
    assert forall b :: 0 <= b < |s.queues| ==> QueueSound(s.queues[b], cfg.types[b]);
  }

  // ----- whether everything published has been written -----

  ghost predicate PostFlagged(e: Extraction) {
    forall b :: 0 <= b < |e.grids| ==> FlagsWritten(e.grids[b], |e.u|)
  }

  ghost predicate AllFlagged(posts: seq<Extraction>) { forall p :: 0 <= p < |posts| ==> PostFlagged(posts[p]) }

  ghost predicate PostDefined(e: Extraction) {
    forall b :: 0 <= b < |e.grids| ==> AllDefined(e.grids[b], |e.u|)
  }

  lemma TakeFlagsIff(cfg: Config, s: Sys, now: int, e: Extraction)
    requires Sound(cfg, s) && s.running && s.pending.Some?
    requires e == Extracted(s.queues, cfg.types, s.pending.value.start, s.pending.value.end)
    ensures PostFlagged(e) <==> NoneEarly(s, Take(now))
  {
    var w := s.pending.value;
    var _ := TakeHasTimes(cfg, s);
    forall b | 0 <= b < |s.queues|
      ensures FlagsWritten(e.grids[b], |e.u|) <==> AllFrom(s.queues[b].Live(), w.start)
    {
      assert QueueSound(s.queues[b], cfg.types[b]);
      ExtractWrittenIffNoneEarly(s.queues, cfg.types, w.start, w.end, b);
    }
  }

  lemma FlaggedSnoc(posts: seq<Extraction>, e: Extraction)
    ensures AllFlagged(posts + [e]) <==> AllFlagged(posts) && PostFlagged(e)
  {
    if AllFlagged(posts + [e]) {
      assert (posts + [e])[|posts|] == e;
      assert forall p :: 0 <= p < |posts| ==> posts[p] == (posts + [e])[p];
    }
  }

  lemma StepFlagsIff(cfg: Config, s: Sys, e: Event, t: Sys)
    requires Sound(cfg, s) && AllFlagged(s.posts) && t == Step(cfg, s, e)
    ensures AllFlagged(t.posts) <==> NoneEarly(s, e)
  {
    if e.Take? && s.running && s.pending.Some? {
      TakeResult(cfg, s, e.now);
      TakeFlagsIff(cfg, s, e.now, t.posts[|s.posts|]);
      FlaggedSnoc(s.posts, t.posts[|s.posts|]);
    }
  }

  /**
   * Every valid flag of every post is written if and only if no take of the
   * run found a row from before the start of its window.
   */
  lemma {:induction false} FlagsWrittenIff(cfg: Config, s: Sys, events: seq<Event>)
    requires Sound(cfg, s) && WellFormed(cfg, s, events) && AllFlagged(s.posts)
    ensures AllFlagged(Run(cfg, s, events).posts) <==> NeverEarly(cfg, s, events)
    decreases |events|
  {
    if events != [] {
      var t, later := Step(cfg, s, events[0]), events[1..];
      StepFlagsIff(cfg, s, events[0], t);
      if NoneEarly(s, events[0]) {
        StepKeepsSound(cfg, s, events[0]);
        FlagsWrittenIff(cfg, t, later);
      } else {
        PostsGrow(cfg, t, later);
        FlagsStayUnwritten(t.posts, Run(cfg, t, later).posts);
      }
    }
  }

  lemma FlagsStayUnwritten(posts: seq<Extraction>, more: seq<Extraction>)
    requires posts <= more && !AllFlagged(posts)
    ensures !AllFlagged(more)
  {
    var p :| 0 <= p < |posts| && !PostFlagged(posts[p]);
    assert more[p] == posts[p];
  }

  lemma SoundPostDefinedIff(e: Extraction, types: seq<seq<TypeCode>>, hist: seq<seq<Row>>)
    requires PostSound(e, types, hist) && forall b :: 0 <= b < |hist| ==> Complete(hist[b])
    ensures PostDefined(e) <==> PostFlagged(e)
  {
    forall b, r | PostFlagged(e) && 0 <= b < |e.grids| && 0 <= r < |e.u| ensures Defined(e.grids[b], r) {
      assert RowSound(e, b, r, types[b], hist[b]);
      assert FlagsWritten(e.grids[b], |e.u|);
      if !Blank(e.grids[b], r, types[b]) {
        var j :| 0 <= j < |hist[b]| && hist[b][j].ts == e.u[r] && Copied(e.grids[b], r, hist[b][j]);
        CopiedIsDefined(e.grids[b], r, hist[b][j]);
      }
    }
    forall b, r | PostDefined(e) && 0 <= b < |e.grids| && 0 <= r < |e.u|
      ensures r < |e.grids[b].valid| && e.grids[b].valid[r] != Unwritten
    {
      assert AllDefined(e.grids[b], |e.u|);
      assert Defined(e.grids[b], r);
    }
  }

  /**
   * With complete updates every cell of every post is written if and only if
   * no take of the run found a row from before the start of its window.
   */
  lemma {:induction false} CellsWrittenIff(cfg: Config, now: int, events: seq<Event>)
    requires cfg.period > 0 && WellFormed(cfg, Initial(cfg, now), events)
    requires forall b :: 0 <= b < |cfg.types| ==> Complete(PushedRows(events, b))
    ensures var posts := Run(cfg, Initial(cfg, now), events).posts;
      (forall p :: 0 <= p < |posts| ==> PostDefined(posts[p])) <==> NeverEarly(cfg, Initial(cfg, now), events)
  {
    var posts := Run(cfg, Initial(cfg, now), events).posts;
    var hist := FromStart(cfg, now, events);
    InitialIsSound(cfg, now);
    FlagsWrittenIff(cfg, Initial(cfg, now), events);
    forall p | 0 <= p < |posts| ensures PostDefined(posts[p]) <==> PostFlagged(posts[p]) {
      assert PostSound(posts[p], cfg.types, hist);
      SoundPostDefinedIff(posts[p], cfg.types, hist);
    }
  }

  // ----- in which order rows are reported -----

  ghost predicate ShownAt(e: Extraction, b: nat, r: int) {
    b < |e.grids| && 0 <= r < |e.u| && r < |e.grids[b].valid| && e.grids[b].valid[r] == Bool(true)
  }

  /** The time is that of one of the first n rows. */
  ghost predicate Among(t: TimeStamp, rows: seq<Row>, n: int) {
    exists k :: 0 <= k < n && k < |rows| && rows[k].ts == t
  }

  ghost predicate ShownAmong(e: Extraction, b: nat, rows: seq<Row>, n: int) {
    Ascending(e.u) && forall r :: ShownAt(e, b, r) ==> Among(e.u[r], rows, n)
  }

  ghost predicate InOrder(e: Extraction, e': Extraction, b: nat) {
    forall i, j :: ShownAt(e, b, i) && ShownAt(e', b, j) ==> Lt(e.u[i], e'.u[j])
  }

  /** What the posts show of buffer b are rows that have left its queue, in the order of the posts. */
  ghost predicate ShownInOrder(posts: seq<Extraction>, b: nat, pushed: seq<Row>, n: int) {
    && (forall p :: 0 <= p < |posts| ==> ShownAmong(posts[p], b, pushed, n))
    && (forall p, q :: 0 <= p < q < |posts| ==> InOrder(posts[p], posts[q], b))
  }

  /** What one extraction shows of a buffer are rows it consumes. */
  lemma {:induction false} ShownIsConsumed(u: seq<TimeStamp>, end: TimeStamp, types: seq<TypeCode>, live: seq<Row>,
        c: nat, g: Grid, r: nat)
    requires Wide(live, |types|) && r < |u| && g == MergeBuffer(u, end, types, live).0
    requires c == MergeBuffer(u, end, types, live).1 && r < |g.valid| && g.valid[r] == Bool(true)
    ensures Among(u[r], live, c)
  {
    TraceExact(u, end, types, live, r);
    MergeStops(u, end, types, live);
    MatchedByStop(u, end, live, c);
    assert Matched(u, end, live, r);
    var j :| 0 <= j < |live| && Matches(u, end, live, j, r);
    assert live[j].ts == u[r];
  }

  lemma AmongTail(t: TimeStamp, live: seq<Row>, c: nat, pushed: seq<Row>) returns (k: nat)
    requires TailOf(live, pushed) && c <= |live| && Among(t, live, c)
    ensures |pushed| - |live| <= k < |pushed| - |live| + c && pushed[k].ts == t
  {
    var j :| 0 <= j < c && j < |live| && live[j].ts == t;
    k := |pushed| - |live| + j;
  }

  /** A post that shows rows of the queue comes behind the posts that show rows which have left it. */
  lemma OneMoreInOrder(posts: seq<Extraction>, e: Extraction, b: nat, pushed: seq<Row>, live: seq<Row>, c: nat)
    requires AscendingRows(pushed) && TailOf(live, pushed) && c <= |live|
    requires ShownInOrder(posts, b, pushed, |pushed| - |live|) && ShownAmong(e, b, live, c)
    ensures ShownInOrder(posts + [e], b, pushed, |pushed| - |live| + c)
  {
    var m := |pushed| - |live|;
    forall r | ShownAt(e, b, r) ensures Among(e.u[r], pushed, m + c) {
      var k := AmongTail(e.u[r], live, c, pushed);
    }
    forall p | 0 <= p < |posts| ensures ShownAmong(posts[p], b, pushed, m + c) && InOrder(posts[p], e, b) {
      AllAmongFirst(posts[p], e, b, pushed, live, c);
    }
  }

  lemma AllAmongFirst(e0: Extraction, e: Extraction, b: nat, pushed: seq<Row>, live: seq<Row>, c: nat)
    requires AscendingRows(pushed) && TailOf(live, pushed) && c <= |live|
    requires ShownAmong(e0, b, pushed, |pushed| - |live|) && ShownAmong(e, b, live, c)
    ensures ShownAmong(e0, b, pushed, |pushed| - |live| + c) && InOrder(e0, e, b)
  {
    forall i | ShownAt(e0, b, i) ensures Among(e0.u[i], pushed, |pushed| - |live| + c) {
      var k :| 0 <= k < |pushed| - |live| && k < |pushed| && pushed[k].ts == e0.u[i];
    }
    forall i, j | ShownAt(e0, b, i) && ShownAt(e, b, j) ensures Lt(e0.u[i], e.u[j]) {
      var k :| 0 <= k < |pushed| - |live| && k < |pushed| && pushed[k].ts == e0.u[i];
      var k' := AmongTail(e.u[j], live, c, pushed);
    }
  }

  lemma MoreInOrder(posts: seq<Extraction>, b: nat, pushed: seq<Row>, rows: seq<Row>, n: int)
    requires ShownInOrder(posts, b, pushed, n)
    ensures ShownInOrder(posts, b, pushed + rows, n)
  {
    forall p | 0 <= p < |posts| ensures ShownAmong(posts[p], b, pushed + rows, n) {
      forall r | ShownAt(posts[p], b, r) ensures Among(posts[p].u[r], pushed + rows, n) {
        var k :| 0 <= k < n && k < |pushed| && pushed[k].ts == posts[p].u[r];
        assert (pushed + rows)[k] == pushed[k];
      }
    }
  }

  /** Buffer b with its history: the queue is its tail, and the posts show the rows before that in order. */
  ghost predicate OrderInv(cfg: Config, s: Sys, b: nat, pushed: seq<Row>) {
    && Sound(cfg, s) && b < |s.queues| && TailOf(s.queues[b].Live(), pushed)
    && ShownInOrder(s.posts, b, pushed, |pushed| - |s.queues[b].Live()|)
  }

  lemma ExtractionShows(qs: seq<Queue>, types: seq<seq<TypeCode>>, w: Window, b: nat, e: Extraction, c: nat)
    requires |types| == |qs| && b < |qs| && Fit(qs[b], types[b]) && e == Extracted(qs, types, w.start, w.end)
    requires c == MergeBuffer(e.u, w.end, types[b], qs[b].Live()).1
    ensures ShownAmong(e, b, qs[b].Live(), c)
  {
    UnionIsHeldWindow(qs, w.start, w.end);
    forall r | ShownAt(e, b, r) ensures Among(e.u[r], qs[b].Live(), c) {
      ShownIsConsumed(e.u, w.end, types[b], qs[b].Live(), c, e.grids[b], r);
    }
  }

  lemma TakeKeepsOrder(cfg: Config, s: Sys, b: nat, pushed: seq<Row>, now: int, w: Window, t: Sys)
    requires OrderInv(cfg, s, b, pushed) && AscendingRows(pushed) && s.pending == Some(w) && t == Taken(cfg, s, w, now)
    ensures OrderInv(cfg, t, b, pushed)
  {
    var live, e := s.queues[b].Live(), Extracted(s.queues, cfg.types, w.start, w.end);
    var c := MergeBuffer(e.u, w.end, cfg.types[b], live).1;
    assert QueueSound(s.queues[b], cfg.types[b]);
    TakenIsSound(cfg, s, now);
    ExtractSuffix(s.queues, cfg.types, w.start, w.end, b);
    TailOfTail(t.queues[b].Live(), live, pushed);
    ExtractionShows(s.queues, cfg.types, w, b, e, c);
    OneMoreInOrder(s.posts, e, b, pushed, live, c);
  }

  lemma PushKeepsOrder(cfg: Config, s: Sys, b: nat, pushed: seq<Row>, rows: seq<Row>, t: Sys)
    requires OrderInv(cfg, s, b, pushed) && Admissible(cfg, s, Push(b, rows)) && t == Step(cfg, s, Push(b, rows))
    ensures OrderInv(cfg, t, b, pushed + rows)
  {
    StepKeepsSound(cfg, s, Push(b, rows));
    PushedBehind(cfg, s, b, rows);
    TailExtended(s.queues[b].Live(), pushed, rows);
    MoreInOrder(s.posts, b, pushed, rows, |pushed| - |s.queues[b].Live()|);
  }

  /** A step that neither publishes nor touches the buffer. */
  lemma IdleKeepsOrder(cfg: Config, s: Sys, b: nat, pushed: seq<Row>, e: Event, t: Sys)
    requires OrderInv(cfg, s, b, pushed) && Admissible(cfg, s, e) && t == Step(cfg, s, e)
    requires !(e.Take? && s.running && s.pending.Some?) && !(e.Push? && e.b == b)
    ensures OrderInv(cfg, t, b, pushed)
  {
    StepKeepsSound(cfg, s, e);
    assert t.queues[b] == s.queues[b] && t.posts == s.posts;
  }

  lemma StepKeepsOrder(cfg: Config, s: Sys, b: nat, pushed: seq<Row>, e: Event, t: Sys, rows: seq<Row>)
    requires OrderInv(cfg, s, b, pushed) && Admissible(cfg, s, e) && t == Step(cfg, s, e) && AscendingRows(pushed)
    requires rows == if e.Push? && e.b == b then e.rows else []
    ensures OrderInv(cfg, t, b, pushed + rows)
  {
    if e.Push? && e.b == b {
      PushKeepsOrder(cfg, s, b, pushed, rows, t);
    } else {
      assert pushed + rows == pushed;
      if e.Take? && s.running && s.pending.Some? {
        TakeResult(cfg, s, e.now);
        TakeKeepsOrder(cfg, s, b, pushed, e.now, s.pending.value, t);
      } else {
        IdleKeepsOrder(cfg, s, b, pushed, e, t);
      }
    }
  }

  lemma {:induction false} RunKeepsOrder(cfg: Config, s: Sys, b: nat, pushed: seq<Row>, events: seq<Event>)
    requires OrderInv(cfg, s, b, pushed) && WellFormed(cfg, s, events)
    requires AscendingRows(pushed + PushedRows(events, b))
    ensures OrderInv(cfg, Run(cfg, s, events), b, pushed + PushedRows(events, b))
    decreases |events|
  {
    if events == [] {
      assert pushed + [] == pushed;
    } else {
      var e, t, later := events[0], Step(cfg, s, events[0]), events[1..];
      var rows := if e.Push? && e.b == b then e.rows else [];
      FrontAscends(pushed, rows, PushedRows(later, b));
      StepKeepsOrder(cfg, s, b, pushed, e, t, rows);
      RunKeepsOrder(cfg, t, b, pushed + rows, later);
    }
  }

  lemma FrontAscends(xs: seq<Row>, ys: seq<Row>, zs: seq<Row>)
    ensures xs + (ys + zs) == (xs + ys) + zs
    ensures AscendingRows(xs + (ys + zs)) ==> AscendingRows(xs)
  {
    if AscendingRows(xs + (ys + zs)) {
      assert forall i :: 0 <= i < |xs| ==> xs[i] == (xs + (ys + zs))[i];
    }
  }

  /**
   * Race or no race: if the rows sent for a PV ascend over the run, its valid
   * rows ascend within and across posts.
   */
  lemma {:induction false} ReportedInOrder(cfg: Config, now: int, events: seq<Event>, b: nat, p: nat, q: nat,
        i: nat, j: nat)
    requires cfg.period > 0 && WellFormed(cfg, Initial(cfg, now), events) && b < |cfg.types|
    requires AscendingRows(PushedRows(events, b))
    requires var posts := Run(cfg, Initial(cfg, now), events).posts;
      p <= q < |posts| && ShownAt(posts[p], b, i) && ShownAt(posts[q], b, j) && (p == q ==> i < j)
    ensures var posts := Run(cfg, Initial(cfg, now), events).posts;
      Lt(posts[p].u[i], posts[q].u[j])
  {
    var s := Run(cfg, Initial(cfg, now), events);
    FromStartInOrder(cfg, now, events, b, PushedRows(events, b), s);
    InOrderApplied(s.posts, b, PushedRows(events, b), |PushedRows(events, b)| - |s.queues[b].Live()|, p, q, i, j);
  }

  lemma {:induction false} FromStartInOrder(cfg: Config, now: int, events: seq<Event>, b: nat, pushed: seq<Row>, s: Sys)
    requires cfg.period > 0 && WellFormed(cfg, Initial(cfg, now), events) && b < |cfg.types|
    requires pushed == PushedRows(events, b) && AscendingRows(pushed) && s == Run(cfg, Initial(cfg, now), events)
    ensures OrderInv(cfg, s, b, pushed)
  {
    InitialIsSound(cfg, now);
    assert [] + pushed == pushed;
    RunKeepsOrder(cfg, Initial(cfg, now), b, [], events);
  }

  lemma InOrderApplied(posts: seq<Extraction>, b: nat, pushed: seq<Row>, n: int, p: nat, q: nat, i: nat, j: nat)
    requires ShownInOrder(posts, b, pushed, n) && p <= q < |posts|
    requires ShownAt(posts[p], b, i) && ShownAt(posts[q], b, j) && (p == q ==> i < j)
    ensures Lt(posts[p].u[i], posts[q].u[j])
  {
    assert ShownAmong(posts[p], b, pushed, n);
    if p < q { assert InOrder(posts[p], posts[q], b); }
  }

  /** Output row r of buffer b is a valid copy of the row, under the row's own time. */
  ghost predicate Reports(e: Extraction, b: nat, r: nat, row: Row) {
    b < |e.grids| && r < |e.u| && e.u[r] == row.ts && Copied(e.grids[b], r, row)
  }

  /** So no row is reported as valid twice. */
  lemma {:induction false} ReportedAtMostOnce(cfg: Config, now: int, events: seq<Event>, b: nat, row: Row, p: nat,
        i: nat, q: nat, j: nat)
    requires cfg.period > 0 && WellFormed(cfg, Initial(cfg, now), events) && b < |cfg.types|
    requires AscendingRows(PushedRows(events, b))
    requires var posts := Run(cfg, Initial(cfg, now), events).posts;
      p < |posts| && q < |posts| && Reports(posts[p], b, i, row) && Reports(posts[q], b, j, row)
    ensures p == q && i == j
  {
    if p < q || (p == q && i < j) {
      ReportedInOrder(cfg, now, events, b, p, q, i, j);
    } else if p != q || i != j {
      ReportedInOrder(cfg, now, events, b, q, p, j, i);
    }
  }

  /** Nor is it when nothing old arrives and the frontier is kept, whatever else is sent. */
  lemma {:induction false} ReportedOnceBehindFrontier(cfg: Config, now: int, events: seq<Event>, b: nat, row: Row,
        p: nat, i: nat, q: nat, j: nat)
    requires cfg.period > 0 && Orderly(cfg, Initial(cfg, now), MIN_TS, events)
    requires KeptUntilLast(cfg, Initial(cfg, now), events)
    requires var posts := Run(cfg, Initial(cfg, now), events).posts;
      p < |posts| && q < |posts| && Reports(posts[p], b, i, row) && Reports(posts[q], b, j, row)
    ensures p == q && i == j
  {
    if p < q || (p == q && i < j) {
      PublishedTimesIncrease(cfg, now, events, p, q, i, j);
    } else if p != q || i != j {
      PublishedTimesIncrease(cfg, now, events, q, p, j, i);
    }
  }
}
