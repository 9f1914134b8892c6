/**
 * How rows are split into updates does not matter to a run, as long as no row
 * carries pulse id 0. Module FlatRuns has the exact condition, LossExamples a
 * run with pulse id 0 in which it does matter.
 */
module RunChunking {
  import opened TimeStamps
  import opened TimeTables
  import opened RowQueues
  import opened Alignment
  import opened Runs
  import opened Frontiers
  import opened FlatRuns

  ghost predicate Tagged(rows: seq<Row>) {
    forall x :: x in rows ==> x.ts.utag > 0
  }

  /** Every held row, consumed or not, carries a pulse id other than 0. */
  ghost predicate AllTagged(s: Sys) {
    forall b :: 0 <= b < |s.queues| ==> Tagged(s.queues[b].Live()) && Tagged(s.queues[b].Stale())
  }

  ghost predicate TaggedEvents(events: seq<Event>) {
    forall i :: 0 <= i < |events| && events[i].Push? ==> Tagged(events[i].rows)
  }

  /** With non-zero pulse ids, a held consumed row lies strictly before any window that is still to come. */
  lemma TaggedStaleIsBefore(cfg: Config, s: Sys, floor: TimeStamp, b: nat)
    requires Inv(cfg, s, floor) && AllTagged(s) && b < |s.queues|
    ensures StaleBefore(s.queues[b], floor)
  {
    assert QueueInv(s.queues[b], cfg.types[b], floor);
  }

  lemma NoStaleInWindow(cfg: Config, s: Sys, floor: TimeStamp)
    requires Inv(cfg, s, floor) && AllTagged(s) && s.pending.Some?
    ensures StaleDoubled(s.queues, s.pending.value.start, s.pending.value.end)
  {
    forall b | 0 <= b < |s.queues| ensures StaleBefore(s.queues[b], floor) {
      TaggedStaleIsBefore(cfg, s, floor, b);
    }
    NoneStaleFromFloor(s.queues, floor, s.pending.value.start, s.pending.value.end);
  }

  lemma NoneStaleFromFloor(qs: seq<Queue>, floor: TimeStamp, start: TimeStamp, end: TimeStamp)
    requires Le(floor, start) && forall b :: 0 <= b < |qs| ==> StaleBefore(qs[b], floor)
    ensures StaleDoubled(qs, start, end)
  {
  }

  lemma TakeStaysTagged(cfg: Config, s: Sys, now: int, t: Sys)
    requires Sound(cfg, s) && AllTagged(s) && s.pending.Some?
    requires t == Taken(cfg, s, s.pending.value, now)
    ensures AllTagged(t)
  {
    SoundIsFit(cfg, s);
    var w := s.pending.value;
    forall b | 0 <= b < |t.queues| ensures Tagged(t.queues[b].Live()) && Tagged(t.queues[b].Stale()) {
      ExtractSuffix(s.queues, cfg.types, w.start, w.end, b);
      var live := s.queues[b].Live();
      assert Tagged(live) && Tagged(s.queues[b].Stale());
      forall x | x in t.queues[b].Stale() ensures x.ts.utag > 0 {
        if x !in s.queues[b].Stale() { assert x in live; }
      }
    }
  }

  lemma PushStaysTagged(cfg: Config, s: Sys, b: nat, rows: seq<Row>, t: Sys)
    requires Sound(cfg, s) && AllTagged(s) && rows != [] && Tagged(rows) && b < |s.queues|
    requires t == s.(queues := s.queues[b := s.queues[b].Pushed(rows)])
    ensures AllTagged(t)
  {
    assert QueueSound(s.queues[b], cfg.types[b]);
    s.queues[b].PushedLive(rows);
    forall i | 0 <= i < |t.queues| ensures Tagged(t.queues[i].Live()) && Tagged(t.queues[i].Stale()) {
      assert Tagged(s.queues[i].Live()) && Tagged(s.queues[i].Stale());
    }
  }

  lemma StepStaysTagged(cfg: Config, s: Sys, e: Event, t: Sys)
    requires Sound(cfg, s) && AllTagged(s) && Admissible(cfg, s, e) && (e.Push? ==> Tagged(e.rows))
    requires t == Step(cfg, s, e)
    ensures AllTagged(t)
  {
    if e.Push? {
      if e.b < |s.queues| { PushStaysTagged(cfg, s, e.b, e.rows, t); }
    } else if e.Take? && s.running && s.pending.Some? {
      TakeResult(cfg, s, e.now);
      TakeStaysTagged(cfg, s, e.now, t);
    }
  }

  /** So with pulse ids other than 0 every run that keeps the frontier sees its buffers as flat queues. */
  lemma {:induction false} TaggedRunsSeeFlat(cfg: Config, s: Sys, floor: TimeStamp, events: seq<Event>)
    requires Inv(cfg, s, floor) && AllTagged(s) && Orderly(cfg, s, floor, events) && TaggedEvents(events)
    requires AlwaysKept(cfg, s, events)
    ensures AlwaysSeesFlat(cfg, s, events)
    decreases |events|
  {
    if events != [] {
      var e := events[0];
      var t := Step(cfg, s, e);
      if s.pending.Some? { NoStaleInWindow(cfg, s, floor); }
      StepStaysTagged(cfg, s, e, t);
      StepKeepsInv(cfg, s, floor, e);
      TaggedRunsSeeFlat(cfg, t, NextFloor(s, floor, e), events[1..]);
    }
  }

  /** Where both see flat queues, one take keeps the frontier if the other does. */
  lemma KeptTogether(cfg: Config, s: Sys, s': Sys, e: Event)
    requires Sound(cfg, s) && Sound(cfg, s') && SameLive(s, s') && SeesFlat(s, e) && SeesFlat(s', e) && Kept(s, e)
    ensures Kept(s', e)
  {
    if e.Take? && s.running && s.pending.Some? {
      var w := s.pending.value;
      SoundIsFit(cfg, s);
      SoundIsFit(cfg, s');
      ChunkingIrrelevant(s.queues, s'.queues, cfg.types, w.start, w.end);
      assert Union(s.queues, w.start, w.end) == Union(s'.queues, w.start, w.end);
    }
  }

  /** Two states that hold the same unconsumed rows go on alike under every schedule. */
  lemma {:induction false} RunsAgree(cfg: Config, s: Sys, s': Sys, floor: TimeStamp, events: seq<Event>)
    requires Inv(cfg, s, floor) && Inv(cfg, s', floor) && AllTagged(s) && AllTagged(s') && SameLive(s, s')
    requires Orderly(cfg, s, floor, events) && AlwaysKept(cfg, s, events) && TaggedEvents(events)
    ensures SameLive(Run(cfg, s, events), Run(cfg, s', events))
    decreases |events|
  {
    if events != [] {
      var e := events[0];
      var t, t' := Step(cfg, s, e), Step(cfg, s', e);
      if s.pending.Some? {
        NoStaleInWindow(cfg, s, floor);
        NoStaleInWindow(cfg, s', floor);
      }
      StepTogether(cfg, s, s', e, t, t');
      KeptTogether(cfg, s, s', e);
      StepKeepsInv(cfg, s, floor, e);
      StepKeepsInv(cfg, s', floor, e);
      StepStaysTagged(cfg, s, e, t);
      StepStaysTagged(cfg, s', e, t');
      RunsAgree(cfg, t, t', NextFloor(s, floor, e), events[1..]);
    }
  }

  // ----- one update in two -----

  /** One update and the same rows in two updates lead to states that differ in their chunks only. */
  lemma SplitPushAgrees(cfg: Config, s: Sys, b: nat, xs: seq<Row>, ys: seq<Row>, t: Sys, t': Sys)
    requires Sound(cfg, s) && b < |s.queues| && xs != [] && ys != [] && Admissible(cfg, s, Push(b, xs + ys))
    requires t == Step(cfg, s, Push(b, xs + ys)) && t' == Step(cfg, Step(cfg, s, Push(b, xs)), Push(b, ys))
    ensures t == s.(queues := s.queues[b := s.queues[b].Pushed(xs + ys)])
    ensures t' == s.(queues := s.queues[b := s.queues[b].Pushed(xs).Pushed(ys)])
    ensures SameLive(t, t') && Sound(cfg, t) && Sound(cfg, t')
  {
    assert QueueSound(s.queues[b], cfg.types[b]);
    SplitPushSound(cfg, s, b, xs, ys, Step(cfg, s, Push(b, xs)));
    SplitPushSame(s, b, xs, ys);
  }

  lemma SplitPushSound(cfg: Config, s: Sys, b: nat, xs: seq<Row>, ys: seq<Row>, s1: Sys)
    requires Sound(cfg, s) && b < |s.queues| && xs != [] && ys != [] && Admissible(cfg, s, Push(b, xs + ys))
    requires s1 == s.(queues := s.queues[b := s.queues[b].Pushed(xs)])
    ensures Sound(cfg, Step(cfg, s, Push(b, xs + ys))) && Sound(cfg, s1) && Sound(cfg, Step(cfg, s1, Push(b, ys)))
    ensures Admissible(cfg, s, Push(b, xs)) && Admissible(cfg, s1, Push(b, ys))
  {
    assert QueueSound(s.queues[b], cfg.types[b]);
    SplitAdmissible(s.queues[b].Live(), xs, ys, |cfg.types[b]|);
    s.queues[b].PushedLive(xs);
    PushKeepsSound(cfg, s, Push(b, xs + ys));
    PushKeepsSound(cfg, s, Push(b, xs));
    PushKeepsSound(cfg, s1, Push(b, ys));
  }

  lemma SplitPushSame(s: Sys, b: nat, xs: seq<Row>, ys: seq<Row>)
    requires b < |s.queues| && s.queues[b].Ok() && xs != [] && ys != []
    ensures SameLive(s.(queues := s.queues[b := s.queues[b].Pushed(xs + ys)]),
                     s.(queues := s.queues[b := s.queues[b].Pushed(xs).Pushed(ys)]))
  {
    var q := s.queues[b];
    q.PushedLive(xs + ys);
    q.PushedLive(xs);
    q.Pushed(xs).PushedLive(ys);
    assert (q.Live() + xs) + ys == q.Live() + (xs + ys);
  }

  lemma SplitAdmissible(live: seq<Row>, xs: seq<Row>, ys: seq<Row>, width: nat)
    requires RowsInRange(xs + ys) && Wide(xs + ys, width) && AscendingRows(live + (xs + ys))
    ensures RowsInRange(xs) && Wide(xs, width) && AscendingRows(live + xs)
    ensures RowsInRange(ys) && Wide(ys, width) && AscendingRows((live + xs) + ys)
  {
    var all := live + (xs + ys);
    assert all == (live + xs) + ys;
    assert forall j :: 0 <= j < |xs| ==> xs[j] == (xs + ys)[j];
    assert forall j :: 0 <= j < |ys| ==> ys[j] == (xs + ys)[|xs| + j];
    assert forall j :: 0 <= j < |live + xs| ==> (live + xs)[j] == all[j];
  }

  lemma SplitTagged(s: Sys, b: nat, xs: seq<Row>, ys: seq<Row>)
    requires AllTagged(s) && b < |s.queues| && s.queues[b].Ok() && xs != [] && ys != [] && Tagged(xs + ys)
    ensures AllTagged(s.(queues := s.queues[b := s.queues[b].Pushed(xs + ys)]))
    ensures AllTagged(s.(queues := s.queues[b := s.queues[b].Pushed(xs).Pushed(ys)]))
  {
    var q := s.queues[b];
    q.PushedLive(xs + ys);
    q.PushedLive(xs);
    q.Pushed(xs).PushedLive(ys);
    assert Tagged(q.Live()) && Tagged(q.Stale());
  }

  /**
   * Splitting any one update of a schedule into two changes nothing that is
   * published, then or later, whenever both runs see flat queues.
   */
  lemma {:induction false} SplittingIsInvisible(cfg: Config, s: Sys, b: nat, xs: seq<Row>, ys: seq<Row>,
        later: seq<Event>, t: Sys, t': Sys)
    requires Sound(cfg, s) && b < |s.queues| && xs != [] && ys != []
    requires WellFormed(cfg, s, [Push(b, xs + ys)] + later)
    requires t == Step(cfg, s, Push(b, xs + ys)) && t' == Step(cfg, Step(cfg, s, Push(b, xs)), Push(b, ys))
    requires AlwaysSeesFlat(cfg, t, later) && AlwaysSeesFlat(cfg, t', later)
    ensures Run(cfg, s, [Push(b, xs + ys)] + later).posts == Run(cfg, s, [Push(b, xs), Push(b, ys)] + later).posts
  {
    var one := [Push(b, xs + ys)];
    assert (one + later)[0] == Push(b, xs + ys) && (one + later)[1..] == later;
    SplitPushAgrees(cfg, s, b, xs, ys, t, t');
    ChunkingsAgree(cfg, t, t', later);
    TwoSteps(cfg, s, Push(b, xs), Push(b, ys), later);
  }

  lemma SplitInv(cfg: Config, s: Sys, floor: TimeStamp, b: nat, xs: seq<Row>, ys: seq<Row>, t: Sys, t': Sys)
    requires Inv(cfg, s, floor) && AllTagged(s) && b < |s.queues| && xs != [] && ys != [] && Tagged(xs + ys)
    requires Admissible(cfg, s, Push(b, xs + ys)) && AllFrom(xs + ys, floor)
    requires t == Step(cfg, s, Push(b, xs + ys)) && t' == Step(cfg, Step(cfg, s, Push(b, xs)), Push(b, ys))
    ensures SameLive(t, t') && AllTagged(t) && AllTagged(t') && Inv(cfg, t, floor) && Inv(cfg, t', floor)
  {
    var s1 := Step(cfg, s, Push(b, xs));
    assert forall j :: 0 <= j < |xs| ==> xs[j] == (xs + ys)[j];
    assert forall j :: 0 <= j < |ys| ==> ys[j] == (xs + ys)[|xs| + j];
    assert QueueSound(s.queues[b], cfg.types[b]);
    SplitPushSound(cfg, s, b, xs, ys, s1);
    SplitPushAgrees(cfg, s, b, xs, ys, t, t');
    SplitTagged(s, b, xs, ys);
    PushStep(cfg, s, floor, Push(b, xs + ys));
    PushStep(cfg, s, floor, Push(b, xs));
    PushStep(cfg, s1, floor, Push(b, ys));
  }

  /** So it does in every run with pulse ids other than 0 that keeps the frontier. */
  lemma {:induction false} SplittingAnUpdateChangesNothing(cfg: Config, s: Sys, floor: TimeStamp, b: nat, xs: seq<Row>,
        ys: seq<Row>, later: seq<Event>)
    requires Inv(cfg, s, floor) && AllTagged(s) && b < |s.queues| && xs != [] && ys != []
    requires Orderly(cfg, s, floor, [Push(b, xs + ys)] + later) && AlwaysKept(cfg, s, [Push(b, xs + ys)] + later)
    requires Tagged(xs + ys) && TaggedEvents(later)
    ensures Run(cfg, s, [Push(b, xs + ys)] + later).posts == Run(cfg, s, [Push(b, xs), Push(b, ys)] + later).posts
  {
    var one := [Push(b, xs + ys)];
    var t, t' := Step(cfg, s, Push(b, xs + ys)), Step(cfg, Step(cfg, s, Push(b, xs)), Push(b, ys));
    assert (one + later)[0] == Push(b, xs + ys) && (one + later)[1..] == later;
    SplitInv(cfg, s, floor, b, xs, ys, t, t');
    RunsAgree(cfg, t, t', floor, later);
    TwoSteps(cfg, s, Push(b, xs), Push(b, ys), later);
  }

  lemma {:induction false} TwoSteps(cfg: Config, s: Sys, e: Event, e': Event, later: seq<Event>)
    requires |cfg.types| == |s.queues|
    ensures Run(cfg, s, [e, e'] + later) == Run(cfg, Step(cfg, Step(cfg, s, e), e'), later)
  {
    var events := [e, e'] + later;
    assert events[0] == e && events[1..] == [e'] + later;
    assert events[1..][0] == e' && events[1..][1..] == later;
  }
}
