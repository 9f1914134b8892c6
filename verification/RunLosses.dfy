/**
 * How many rows a run loses: every pushed row is shown as valid, still queued,
 * or among the lost ones of some take; and exactly when no row is lost.
 */
module RunLosses {
  import opened TimeStamps
  import opened TimeTables
  import opened RowQueues
  import opened Merging
  import opened MergeTrace
  import opened Alignment
  import opened Runs
  import opened RunSoundness
  import opened RunLossless

  /** The rows that a post shows as valid for buffer b, among its first n output rows. */
  function ValidRows(e: Extraction, b: nat, n: nat): seq<Row>
    requires b < |e.grids| && n <= |e.u|
  {
    if n == 0 then []
    else
      var r := n - 1;
      ValidRows(e, b, r) + if ShownValid(e.grids[b], r) then [Row(e.u[r], CellsAt(e.grids[b], r))] else []
  }

  ghost predicate HasBuffer(posts: seq<Extraction>, b: nat) {
    forall p :: 0 <= p < |posts| ==> b < |posts[p].grids|
  }

  /** The rows that all posts together show as valid for buffer b. */
  function ReportedRows(posts: seq<Extraction>, b: nat): seq<Row>
    requires HasBuffer(posts, b)
  {
    if posts == [] then []
    else var last := posts[|posts| - 1]; ReportedRows(posts[..|posts| - 1], b) + ValidRows(last, b, |last.u|)
  }

  /** What has become of the rows of buffer b: the reported ones, followed by those still queued. */
  function Accounted(s: Sys, b: nat): seq<Row>
    requires b < |s.queues| && HasBuffer(s.posts, b)
  {
    ReportedRows(s.posts, b) + s.queues[b].Live()
  }

  /** The rows that one extraction uses up without showing them. */
  function LostRows(u: seq<TimeStamp>, end: TimeStamp, types: seq<TypeCode>, live: seq<Row>): nat {
    var c := MergeBuffer(u, end, types, live).1;
    c - |MatchedRows(u, live, c)|
  }

  /** What a step loses of buffer b. */
  function LostBy(cfg: Config, s: Sys, e: Event, b: nat): nat
    requires |cfg.types| == |s.queues| && b < |s.queues|
  {
    if e.Take? && s.running && s.pending.Some? then
      var w := s.pending.value;
      LostRows(Union(s.queues, w.start, w.end), w.end, cfg.types[b], s.queues[b].Live())
    else 0
  }

  function Lost(cfg: Config, s: Sys, events: seq<Event>, b: nat): nat
    requires |cfg.types| == |s.queues| && b < |s.queues|
    decreases |events|
  {
    if events == [] then 0 else LostBy(cfg, s, events[0], b) + Lost(cfg, Step(cfg, s, events[0]), events[1..], b)
  }

  /** No take finds, in buffer b, a row up to the end of its window behind a gap. */
  ghost predicate NoGap(s: Sys, e: Event, b: nat)
    requires b < |s.queues|
  {
    e.Take? && s.running && s.pending.Some? ==>
      var w, live := s.pending.value, s.queues[b].Live();
      var u := Union(s.queues, w.start, w.end);
      var k := CommonRun(u, live, 0);
      k == |u| || forall j :: k <= j < |live| ==> Gt(live[j].ts, w.end)
  }

  ghost predicate NeverGap(cfg: Config, s: Sys, events: seq<Event>, b: nat)
    requires |cfg.types| == |s.queues| && b < |s.queues|
    decreases |events|
  {
    events == [] || (NoGap(s, events[0], b) && NeverGap(cfg, Step(cfg, s, events[0]), events[1..], b))
  }

  // ----- one extraction -----

  /** The callback stands at an output row it passes for one row only. */
  lemma {:induction false} PassesOnce(u: seq<TimeStamp>, rows: seq<Row>, j: nat, i: nat, r: nat)
    requires j < i < |rows| && Cursor(u, rows, j) == r && r < |u| && !Gt(rows[j].ts, u[r])
    ensures Cursor(u, rows, i) > r
  {
    CursorRises(u, rows, j + 1, i);
  }

  lemma {:induction false} PassesOnly(u: seq<TimeStamp>, rows: seq<Row>, j: nat, i: nat, r: nat)
    requires j < |rows| && i < |rows| && Cursor(u, rows, j) == r && r < |u| && Lt(rows[j].ts, u[r])
    ensures !(Cursor(u, rows, i) == r && rows[i].ts == u[r])
  {
    if Cursor(u, rows, i) == r && rows[i].ts == u[r] {
      if i < j { PassesOnce(u, rows, i, j, r); } else if j < i { PassesOnce(u, rows, j, i, r); }
    }
  }

  /** An output row that a row behind it passes is matched by no other row. */
  lemma {:induction false} PassedIsUnmatched(u: seq<TimeStamp>, end: TimeStamp, rows: seq<Row>, j: nat, r: nat)
    requires j < |rows| && Cursor(u, rows, j) == r && r < |u| && Lt(rows[j].ts, u[r])
    ensures !Matched(u, end, rows, r)
  {
    if Matched(u, end, rows, r) {
      var i :| 0 <= i < |rows| && Matches(u, end, rows, i, r);
      PassesOnly(u, rows, j, i, r);
    }
  }

  lemma {:induction false} UnmatchedIsHidden(u: seq<TimeStamp>, end: TimeStamp, types: seq<TypeCode>, rows: seq<Row>,
        g: Grid, r: nat)
    requires RowEnds(u, end, types, rows, g, r) && !Matched(u, end, rows, r)
    ensures !ShownValid(g, r)
  {
  }

  lemma {:induction false} MatchedIsShown(u: seq<TimeStamp>, end: TimeStamp, types: seq<TypeCode>, rows: seq<Row>,
        g: Grid, j: nat, r: nat)
    requires j < |rows| && RowEnds(u, end, types, rows, g, r) && Matches(u, end, rows, j, r)
    ensures ShownValid(g, r) && Row(u[r], CellsAt(g, r)) == rows[j]
  {
    assert Copied(g, r, rows[j]);
    assert CellsAt(g, r) == rows[j].cells;
  }

  /** Every output row has become what the trace of the callback says. */
  ghost predicate AllEnd(e: Extraction, b: nat, end: TimeStamp, types: seq<TypeCode>, live: seq<Row>) {
    b < |e.grids| && forall r :: 0 <= r < |e.u| ==> RowEnds(e.u, end, types, live, e.grids[b], r)
  }

  /** What one more row adds to the valid output rows up to where the callback stands. */
  lemma {:induction false} ValidStep(e: Extraction, b: nat, end: TimeStamp, types: seq<TypeCode>, live: seq<Row>,
        j: nat, r: nat)
    requires AllEnd(e, b, end, types, live) && j < |live| && Reached(e.u, end, live, j + 1)
    requires r == Cursor(e.u, live, j) && r < |e.u| && !Gt(live[j].ts, e.u[r])
    ensures ValidRows(e, b, r + 1) == ValidRows(e, b, r) + if live[j].ts == e.u[r] then [live[j]] else []
  {
    assert RowEnds(e.u, end, types, live, e.grids[b], r);
    if live[j].ts == e.u[r] {
      assert Matches(e.u, end, live, j, r);
      MatchedIsShown(e.u, end, types, live, e.grids[b], j, r);
    } else {
      PassedIsUnmatched(e.u, end, live, j, r);
      UnmatchedIsHidden(e.u, end, types, live, e.grids[b], r);
    }
  }

  /** Up to where the callback stands at row j, the valid output rows are the matched rows it has seen. */
  ghost predicate ShownUpTo(e: Extraction, b: nat, live: seq<Row>, j: nat)
    requires b < |e.grids| && j <= |live|
  {
    var r := Cursor(e.u, live, j);
    r <= |e.u| && ValidRows(e, b, r) == MatchedRows(e.u, live, j)
  }

  lemma {:induction false} ValidOneMore(e: Extraction, b: nat, end: TimeStamp, types: seq<TypeCode>,
        live: seq<Row>, c: nat, j: nat)
    requires AllEnd(e, b, end, types, live) && j < c <= |live| && Reached(e.u, end, live, c)
    requires ShownUpTo(e, b, live, j)
    ensures ShownUpTo(e, b, live, j + 1)
  {
    var r := Cursor(e.u, live, j);
    ReachedEarlier(e.u, end, live, j + 1, c);
    if !Gt(live[j].ts, e.u[r]) { ValidStep(e, b, end, types, live, j, r); }
  }

  lemma {:induction false} ValidUpToCursor(e: Extraction, b: nat, end: TimeStamp, types: seq<TypeCode>,
        live: seq<Row>, c: nat, j: nat)
    requires AllEnd(e, b, end, types, live) && j <= c <= |live| && Reached(e.u, end, live, c)
    ensures ShownUpTo(e, b, live, j)
  {
    if j > 0 {
      ValidUpToCursor(e, b, end, types, live, c, j - 1);
      ValidOneMore(e, b, end, types, live, c, j - 1);
    }
  }

  lemma {:induction false} HiddenBeyond(e: Extraction, b: nat, end: TimeStamp, types: seq<TypeCode>, live: seq<Row>,
        c: nat, r: nat)
    requires AllEnd(e, b, end, types, live) && StopsBefore(e.u, end, live, c)
    requires Cursor(e.u, live, c) <= r < |e.u|
    ensures !ShownValid(e.grids[b], r)
  {
    MatchedByStop(e.u, end, live, c);
    if Matched(e.u, end, live, r) { MatchedIsPassed(e.u, end, live, c, r); }
    UnmatchedIsHidden(e.u, end, types, live, e.grids[b], r);
  }

  /** Where nothing more is valid, nothing is added. */
  lemma {:induction false} ValidBeyond(e: Extraction, b: nat, from: nat, n: nat)
    requires b < |e.grids| && from <= n <= |e.u| && forall r :: from <= r < n ==> !ShownValid(e.grids[b], r)
    ensures ValidRows(e, b, n) == ValidRows(e, b, from)
  {
    if n > from { ValidBeyond(e, b, from, n - 1); }
  }

  /** One take: what it shows of a buffer, and what it keeps. */
  lemma {:induction false} TakeShows(qs: seq<Queue>, types: seq<seq<TypeCode>>, w: Window, b: nat, e: Extraction,
        q': Queue, c: nat)
    requires |types| == |qs| && b < |qs| && Fit(qs[b], types[b])
    requires e == Extracted(qs, types, w.start, w.end) && q' == AfterExtract(qs, types, w.start, w.end)[b]
    requires c == MergeBuffer(e.u, w.end, types[b], qs[b].Live()).1
    ensures c <= |qs[b].Live()| && q'.Live() == qs[b].Live()[c..]
    ensures b < |e.grids| && ValidRows(e, b, |e.u|) == MatchedRows(e.u, qs[b].Live(), c)
  {
    var live := qs[b].Live();
    ExtractSuffix(qs, types, w.start, w.end, b);
    forall r | 0 <= r < |e.u| ensures RowEnds(e.u, w.end, types[b], live, e.grids[b], r) {
      TraceExact(e.u, w.end, types[b], live, r);
    }
    ValidUpToCursor(e, b, w.end, types[b], live, c, c);
    forall r | Cursor(e.u, live, c) <= r < |e.u| ensures !ShownValid(e.grids[b], r) {
      HiddenBeyond(e, b, w.end, types[b], live, c, r);
    }
    ValidBeyond(e, b, Cursor(e.u, live, c), |e.u|);
  }

  /** One take loses rows exactly when there is a row up to the end of its window behind a gap. */
  lemma {:induction false} TakeLoses(cfg: Config, s: Sys, now: int, b: nat, u: seq<TimeStamp>, live: seq<Row>, c: nat)
    requires Sound(cfg, s) && s.running && s.pending.Some? && b < |s.queues| && live == s.queues[b].Live()
    requires u == Union(s.queues, s.pending.value.start, s.pending.value.end)
    requires c == MergeBuffer(u, s.pending.value.end, cfg.types[b], live).1
    ensures c - |MatchedRows(u, live, c)| == LostBy(cfg, s, Take(now), b)
    ensures LostBy(cfg, s, Take(now), b) == 0 <==> NoGap(s, Take(now), b)
    ensures |MatchedRows(u, live, c)| == c ==> MatchedRows(u, live, c) == live[..c]
  {
    var w := s.pending.value;
    assert QueueSound(s.queues[b], cfg.types[b]);
    NothingLostIff(s.queues, cfg.types, w.start, w.end, b);
    AllMatchedIff(u, live, c);
  }

  // ----- what one take loses when no row comes early -----

  /** The number of leading rows up to and including `end`. */
  function CountUpTo(rows: seq<Row>, end: TimeStamp): nat {
    if rows == [] || Gt(rows[0].ts, end) then 0 else 1 + CountUpTo(rows[1..], end)
  }

  lemma {:induction false} CountIs(rows: seq<Row>, end: TimeStamp, c: nat)
    requires c <= |rows| && (forall j :: 0 <= j < c ==> Le(rows[j].ts, end)) && (c < |rows| ==> Gt(rows[c].ts, end))
    ensures CountUpTo(rows, end) == c
  {
    if c > 0 { CountIs(rows[1..], end, c - 1); }
  }

  /** Behind a gap no row is matched any more. */
  lemma {:induction false} NoneMatchedAhead(u: seq<TimeStamp>, rows: seq<Row>, k: nat, i: nat)
    requires k <= i <= |rows| && k < |u| && Cursor(u, rows, k) == k && |MatchedRows(u, rows, k)| == k
    requires forall j :: k <= j < i ==> Lt(u[k], rows[j].ts)
    ensures Cursor(u, rows, i) == k && |MatchedRows(u, rows, i)| == k
  {
    if i > k { NoneMatchedAhead(u, rows, k, i - 1); }
  }

  /**
   * Without rows before the window an extraction loses nothing of a buffer that
   * carries all times of the union, and else the rows up to and including the
   * end of the window behind its common run with the union.
   */
  lemma {:induction false} LostBehindGap(u: seq<TimeStamp>, end: TimeStamp, types: seq<TypeCode>, live: seq<Row>,
        k: nat)
    requires Wide(live, |types|) && Covers(u, end, live) && AscendingRows(live) && k == CommonRun(u, live, 0)
    ensures LostRows(u, end, types, live) == if k == |u| then 0 else CountUpTo(live, end) - k
  {
    var c := MergeBuffer(u, end, types, live).1;
    MergeExact(u, end, types, live);
    CursorAlongRun(u, live, k, k);
    AllMatchedIff(u, live, k);
    if k < |u| {
      CountIs(live, end, c);
      if k < c {
        FirstDifferenceIsAhead(u, end, live, k);
        NoneMatchedAhead(u, live, k, c);
      }
    }
  }

  // ----- one step -----

  /** The rows a step brings buffer b. */
  function Brought(e: Event, b: nat): seq<Row> { if e.Push? && e.b == b then e.rows else [] }

  lemma {:induction false} ReportedOneMore(posts: seq<Extraction>, e: Extraction, b: nat)
    requires HasBuffer(posts, b) && b < |e.grids|
    ensures HasBuffer(posts + [e], b) && ReportedRows(posts + [e], b) == ReportedRows(posts, b) + ValidRows(e, b, |e.u|)
  {
    assert (posts + [e])[..|posts|] == posts;
  }

  /** Some of the first c rows more are reported, c rows fewer are queued. */
  lemma AccountsMove(shown: seq<Row>, live: seq<Row>, more: seq<Row>, c: nat)
    requires |more| <= c <= |live|
    ensures |(shown + more) + live[c..]| == |shown + live| - (c - |more|)
    ensures more == live[..c] ==> (shown + more) + live[c..] == shown + live
  {
  }

  /**
   * The balance of rows: what there was and what was brought is there
   * afterwards or lost, and as long as nothing is lost, in the same order.
   */
  ghost predicate Balances(before: seq<Row>, brought: seq<Row>, after: seq<Row>, lost: nat, noGap: bool) {
    && (lost == 0 <==> noGap) && |after| + lost == |before| + |brought|
    && (noGap ==> after == before + brought)
  }

  lemma BalancesAdd(a: seq<Row>, x: seq<Row>, b: seq<Row>, l: nat, n: bool, y: seq<Row>, c: seq<Row>, l': nat, n': bool)
    requires Balances(a, x, b, l, n) && Balances(b, y, c, l', n')
    ensures Balances(a, x + y, c, l + l', n && n')
  {
    assert (a + x) + y == a + (x + y);
  }

  lemma StepAccounts(cfg: Config, s: Sys, e: Event, b: nat, t: Sys)
    requires Sound(cfg, s) && Admissible(cfg, s, e) && b < |s.queues| && HasBuffer(s.posts, b)
    requires t == Step(cfg, s, e)
    ensures HasBuffer(t.posts, b)
    ensures Balances(Accounted(s, b), Brought(e, b), Accounted(t, b), LostBy(cfg, s, e, b), NoGap(s, e, b))
  {
    if e.Take? && s.running && s.pending.Some? {
      TakeStepAccounts(cfg, s, e.now, b, t);
    } else if e.Push? && e.b == b {
      PushedBehind(cfg, s, b, e.rows);
      PushBalances(ReportedRows(s.posts, b), s.queues[b].Live(), e.rows);
    } else {
      Unmoved(cfg, s, e, b, t);
    }
  }

  lemma PushBalances(shown: seq<Row>, live: seq<Row>, rows: seq<Row>)
    ensures Balances(shown + live, rows, shown + (live + rows), 0, true)
  {
    assert shown + (live + rows) == (shown + live) + rows;
  }

  lemma Unmoved(cfg: Config, s: Sys, e: Event, b: nat, t: Sys)
    requires |cfg.types| == |s.queues| && b < |s.queues| == |t.queues|
    requires HasBuffer(s.posts, b) && t.posts == s.posts && t.queues[b] == s.queues[b]
    requires !(e.Take? && s.running && s.pending.Some?) && !(e.Push? && e.b == b)
    ensures Balances(Accounted(s, b), Brought(e, b), Accounted(t, b), LostBy(cfg, s, e, b), NoGap(s, e, b))
  {
    assert Accounted(s, b) + [] == Accounted(s, b);
  }

  lemma TakeStepAccounts(cfg: Config, s: Sys, now: int, b: nat, t: Sys)
    requires Sound(cfg, s) && s.running && s.pending.Some? && b < |s.queues| && HasBuffer(s.posts, b)
    requires t == Step(cfg, s, Take(now))
    ensures HasBuffer(t.posts, b)
    ensures Balances(Accounted(s, b), [], Accounted(t, b), LostBy(cfg, s, Take(now), b), NoGap(s, Take(now), b))
  {
    var w, live := s.pending.value, s.queues[b].Live();
    var u := Union(s.queues, w.start, w.end);
    var c := MergeBuffer(u, w.end, cfg.types[b], live).1;
    TakeResult(cfg, s, now);
    TakeLoses(cfg, s, now, b, u, live, c);
    SoundIsFit(cfg, s);
    TakeShows(s.queues, cfg.types, w, b, t.posts[|s.posts|], t.queues[b], c);
    ReportedOneMore(s.posts, t.posts[|s.posts|], b);
    AccountsMove(ReportedRows(s.posts, b), live, MatchedRows(u, live, c), c);
  }

  // ----- runs -----

  /**
   * Conservation of rows over a run, under every interleaving: what is reported and queued in the end,
   * and what the takes lost, add up to what there was and what was pushed.
   */
  lemma {:induction false} RunAccounts(cfg: Config, s: Sys, events: seq<Event>, b: nat)
    requires Sound(cfg, s) && WellFormed(cfg, s, events) && b < |s.queues| && HasBuffer(s.posts, b)
    ensures HasBuffer(Run(cfg, s, events).posts, b)
    ensures Balances(Accounted(s, b), PushedRows(events, b), Accounted(Run(cfg, s, events), b),
                     Lost(cfg, s, events, b), NeverGap(cfg, s, events, b))
    decreases |events|
  {
    if events == [] {
      assert Accounted(s, b) + [] == Accounted(s, b);
    } else {
      var e, later := events[0], events[1..];
      var t := Step(cfg, s, e);
      StepAccounts(cfg, s, e, b, t);
      StepKeepsSound(cfg, s, e);
      RunAccounts(cfg, t, later, b);
      RunUnrolls(cfg, s, e, later, b, t, events);
      BalancesAdd(Accounted(s, b), Brought(e, b), Accounted(t, b), LostBy(cfg, s, e, b), NoGap(s, e, b),
        PushedRows(later, b), Accounted(Run(cfg, t, later), b), Lost(cfg, t, later, b), NeverGap(cfg, t, later, b));
    }
  }

  lemma {:induction false} RunUnrolls(cfg: Config, s: Sys, e: Event, later: seq<Event>, b: nat, t: Sys,
        events: seq<Event>)
    requires |cfg.types| == |s.queues| && b < |s.queues| && events != [] && e == events[0] && later == events[1..]
    requires t == Step(cfg, s, e)
    ensures Run(cfg, s, events) == Run(cfg, t, later) && PushedRows(events, b) == Brought(e, b) + PushedRows(later, b)
    ensures Lost(cfg, s, events, b) == LostBy(cfg, s, e, b) + Lost(cfg, t, later, b)
    ensures NeverGap(cfg, s, events, b) == (NoGap(s, e, b) && NeverGap(cfg, t, later, b))
  {
  }

  /**
   * From start-up: the rows reported of a PV followed by those still queued are
   * exactly the rows pushed for it if and only if no take of the run found a
   * row of it up to the end of the window behind a gap. Otherwise as many rows
   * are missing as the takes lost.
   */
  lemma {:induction false} NothingLostOverRunIff(cfg: Config, now: int, events: seq<Event>, b: nat)
    requires cfg.period > 0 && b < |cfg.types| && WellFormed(cfg, Initial(cfg, now), events)
    ensures var s := Run(cfg, Initial(cfg, now), events);
      && HasBuffer(s.posts, b)
      && (Accounted(s, b) == PushedRows(events, b) <==> NeverGap(cfg, Initial(cfg, now), events, b))
      && |Accounted(s, b)| + Lost(cfg, Initial(cfg, now), events, b) == |PushedRows(events, b)|
  {
    var s0 := Initial(cfg, now);
    InitialIsSound(cfg, now);
    RunAccounts(cfg, s0, events, b);
    NothingAtStart(cfg, now, b);
    FromNothing(PushedRows(events, b), Accounted(Run(cfg, s0, events), b), Lost(cfg, s0, events, b),
      NeverGap(cfg, s0, events, b));
  }

  lemma NothingAtStart(cfg: Config, now: int, b: nat)
    requires b < |cfg.types|
    ensures HasBuffer(Initial(cfg, now).posts, b) && Accounted(Initial(cfg, now), b) == []
  {
  }

  lemma FromNothing(brought: seq<Row>, after: seq<Row>, lost: nat, noGap: bool)
    requires Balances([], brought, after, lost, noGap)
    ensures |after| + lost == |brought| && (after == brought <==> noGap)
  {
    assert [] + brought == brought;
  }

  /** Every buffer's reported rows, followed by the queued ones, are those pushed. */
  ghost predicate AllAccounted(s: Sys, events: seq<Event>) {
    forall b :: 0 <= b < |s.queues| ==> HasBuffer(s.posts, b) && Accounted(s, b) == PushedRows(events, b)
  }

  ghost predicate NowhereGap(cfg: Config, s: Sys, events: seq<Event>) {
    |cfg.types| == |s.queues| && forall b :: 0 <= b < |s.queues| ==> NeverGap(cfg, s, events, b)
  }

  /** The same for all PVs at once. */
  lemma {:induction false} NothingLostAnywhereIff(cfg: Config, now: int, events: seq<Event>)
    requires cfg.period > 0 && WellFormed(cfg, Initial(cfg, now), events)
    ensures AllAccounted(Run(cfg, Initial(cfg, now), events), events) <==> NowhereGap(cfg, Initial(cfg, now), events)
  {
    var s0 := Initial(cfg, now);
    var s := Run(cfg, s0, events);
    if AllAccounted(s, events) {
      forall b | 0 <= b < |s0.queues| ensures NeverGap(cfg, s0, events, b) {
        NothingLostOverRunIff(cfg, now, events, b);
      }
    }
    if NowhereGap(cfg, s0, events) {
      forall b | 0 <= b < |s.queues| ensures HasBuffer(s.posts, b) && Accounted(s, b) == PushedRows(events, b) {
        NothingLostOverRunIff(cfg, now, events, b);
      }
    }
  }
}
