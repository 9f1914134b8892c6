/** When the reactor waits, and that what it does not wait for drains. */
module RunProgress {
  import opened Results
  import opened TimeStamps
  import opened TimeTables
  import opened RowQueues
  import opened TableBuffers
  import opened TimeBoundsOf
  import opened Runs

  function Sum(ns: seq<nat>): nat { if ns == [] then 0 else ns[0] + Sum(ns[1..]) }

  lemma {:induction false} SumMonotone(a: seq<nat>, b: seq<nat>)
    requires |a| == |b| && forall i :: 0 <= i < |a| ==> a[i] <= b[i]
    ensures Sum(a) <= Sum(b)
    ensures (exists i :: 0 <= i < |a| && a[i] < b[i]) ==> Sum(a) < Sum(b)
  {
    if a != [] { SumMonotone(a[1..], b[1..]); }
  }

  lemma {:induction false} SumZero(ns: seq<nat>)
    ensures Sum(ns) == 0 <==> forall i :: 0 <= i < |ns| ==> ns[i] == 0
  {
    if ns != [] {
      SumZero(ns[1..]);
      assert forall i :: 1 <= i < |ns| ==> ns[i] == ns[1..][i - 1];
    }
  }

  function Waiting(qs: seq<Queue>): (ns: seq<nat>)
    ensures |ns| == |qs| && forall b :: 0 <= b < |qs| ==> ns[b] == |qs[b].Live()|
  {
    seq(|qs|, b requires 0 <= b < |qs| => |qs[b].Live()|)
  }

  /** The number of rows waiting in all buffers. */
  function Backlog(qs: seq<Queue>): nat { Sum(Waiting(qs)) }

  lemma BacklogDrops(before: seq<Queue>, after: seq<Queue>, b: nat)
    requires |before| == |after| && b < |before|
    requires forall i :: 0 <= i < |before| ==> |after[i].Live()| <= |before[i].Live()|
    requires |after[b].Live()| < |before[b].Live()|
    ensures Backlog(after) < Backlog(before)
  {
    assert Waiting(after)[b] < Waiting(before)[b];
    SumMonotone(Waiting(after), Waiting(before));
  }

  lemma BacklogZero(qs: seq<Queue>)
    ensures Backlog(qs) == 0 <==> forall b :: 0 <= b < |qs| ==> qs[b].Live() == []
  {
    SumZero(Waiting(qs));
    forall b | 0 <= b < |qs| ensures Waiting(qs)[b] == 0 <==> qs[b].Live() == [] {
    }
  }

  /** Every extraction of a chosen window consumes at least one row, so the backlog strictly decreases. */
  lemma TakeConsumes(cfg: Config, s: Sys, now: int)
    requires Sound(cfg, s) && s.pending.Some?
    ensures Backlog(Taken(cfg, s, s.pending.value, now).queues) < Backlog(s.queues)
  {
    var w := s.pending.value;
    var qs' := Taken(cfg, s, w, now).queues;
    forall i | 0 <= i < |s.queues| ensures |qs'[i].Live()| <= |s.queues[i].Live()| {
      TakeLeavesSuffix(cfg, s, now, i);
    }
    var b := TakeHasTimes(cfg, s);
    BacklogDrops(s.queues, qs', b);
  }

  /** The reactor finds bounds exactly when some row is waiting. */
  lemma BoundsValidIffRows(qs: seq<Queue>)
    ensures BoundsOf(Spans(qs)).valid <==> Backlog(qs) != 0
  {
    BacklogZero(qs);
    BoundsValid(Spans(qs), |qs|);
    if Backlog(qs) != 0 {
      var b :| 0 <= b < |qs| && qs[b].Live() != [];
      assert Spans(qs)[b].valid;
    }
  }

  lemma {:induction false} BoundsValid(spans: seq<TimeSpan>, n: nat)
    requires n <= |spans|
    ensures BoundsOfFirst(spans, n).valid <==> exists i :: 0 <= i < n && spans[i].valid
  {
    if n > 0 { BoundsValid(spans, n - 1); }
  }

  /**
   * With timeout 0 the wait test can never hold, so the reactor does not wait
   * for laggards at all: it sleeps exactly when there is no row.
   */
  lemma TimeoutZeroNeverWaits(cfg: Config, s: Sys, now: int)
    requires Sound(cfg, s) && cfg.timeout == 0
    ensures LookAt(cfg, s.queues, s.lastUpdate, now).Sleep? <==> Backlog(s.queues) == 0
    ensures !LookAt(cfg, s.queues, s.lastUpdate, now).TimedOut?
  {
    SpansSane(cfg, s);
    ShortestWithinLongest(Spans(s.queues));
    BoundsValidIffRows(s.queues);
  }

  /** The reactor alternating between choosing and taking, at the given times. */
  function Cycles(cfg: Config, s: Sys, nows: seq<int>): (r: Sys)
    requires |cfg.types| == |s.queues|
    ensures |r.queues| == |s.queues|
    decreases |nows|
  {
    if nows == [] then s
    else Cycles(cfg, Step(cfg, Step(cfg, s, Look(nows[0])), Take(nows[0])), nows[1..])
  }

  /** No row is so late that a period added to it leaves the clock's range. */
  ghost predicate ClockSafe(cfg: Config, qs: seq<Queue>) {
    forall b :: 0 <= b < |qs| ==> RowsClockSafe(cfg, qs[b].Live())
  }

  ghost predicate RowsClockSafe(cfg: Config, rows: seq<Row>) {
    forall j :: 0 <= j < |rows| ==> NoWrap(rows[j].ts, cfg.period)
  }

  /** One cycle that chooses a window shrinks the backlog and leaves a state of the same kind. */
  lemma CycleConsumes(cfg: Config, s: Sys, now: int)
    requires Sound(cfg, s) && s.running && s.pending.None? && ClockSafe(cfg, s.queues)
    requires LookAt(cfg, s.queues, s.lastUpdate, now).Go?
    ensures var s' := Step(cfg, Step(cfg, s, Look(now)), Take(now));
      && Sound(cfg, s') && s'.running && s'.pending.None? && ClockSafe(cfg, s'.queues)
      && Backlog(s'.queues) < Backlog(s.queues)
  {
    var s1 := Step(cfg, s, Look(now));
    LookChooses(cfg, s, now, s1);
    StepKeepsSound(cfg, s, Look(now));
    TakeResult(cfg, s1, now);
    TakeConsumes(cfg, s1, now);
    TakeKeepsClockSafe(cfg, s1, now);
    TakenIsSound(cfg, s1, now);
  }

  /** A look that chooses a window touches nothing else. */
  lemma LookChooses(cfg: Config, s: Sys, now: int, s1: Sys)
    requires Sound(cfg, s) && s.running && s.pending.None? && ClockSafe(cfg, s.queues)
    requires LookAt(cfg, s.queues, s.lastUpdate, now).Go? && s1 == Step(cfg, s, Look(now))
    ensures s1 == s.(pending := Some(LookAt(cfg, s.queues, s.lastUpdate, now).window))
    ensures Admissible(cfg, s, Look(now))
  {
    ChosenWindow(cfg, s, now);
    StartIsSafe(cfg, s.queues, LookAt(cfg, s.queues, s.lastUpdate, now).window.start);
  }

  lemma StartIsSafe(cfg: Config, qs: seq<Queue>, start: TimeStamp)
    requires ClockSafe(cfg, qs) && StartsAtRow(qs, start)
    ensures NoWrap(start, cfg.period)
  {
    var i :| 0 <= i < |qs| && qs[i].Live() != [] && Untagged(qs[i].Live()[0].ts) == start;
    assert RowsClockSafe(cfg, qs[i].Live());
  }

  lemma TakeKeepsClockSafe(cfg: Config, s: Sys, now: int)
    requires Sound(cfg, s) && s.pending.Some? && ClockSafe(cfg, s.queues)
    ensures ClockSafe(cfg, Taken(cfg, s, s.pending.value, now).queues)
  {
    var qs' := Taken(cfg, s, s.pending.value, now).queues;
    forall b | 0 <= b < |qs'| ensures RowsClockSafe(cfg, qs'[b].Live()) {
      assert RowsClockSafe(cfg, s.queues[b].Live());
      TakeLeavesSuffix(cfg, s, now, b);
    }
  }

  /**
   * The reactor has no window to choose: no rows, or all rows closer together
   * than the timeout and some buffer short of a period.
   */
  ghost predicate Resting(cfg: Config, qs: seq<Queue>) {
    var t := BoundsOf(Spans(qs));
    t.valid ==>
      && Ticks(t.earliestEnd) - Ticks(t.earliestStart) < cfg.period
      && Ticks(t.latestEnd) - Ticks(t.earliestStart) < cfg.timeout
  }

  /** Once it has stopped or rests, nothing but an update changes that. */
  lemma {:induction false} RestIsFinal(cfg: Config, s: Sys, nows: seq<int>)
    requires |cfg.types| == |s.queues| && s.pending.None? && (s.running ==> Resting(cfg, s.queues))
    ensures var e := Cycles(cfg, s, nows); e.queues == s.queues && e.posts == s.posts && (e.running ==> s.running)
    decreases |nows|
  {
    if nows != [] {
      RestIsFinal(cfg, Step(cfg, Step(cfg, s, Look(nows[0])), Take(nows[0])), nows[1..]);
    }
  }

  /**
   * A finite backlog is worked off, whatever the timeout: without further
   * pushes, after as many cycles as there are rows the reactor has nothing
   * left to extract, or has given up.
   */
  lemma {:induction false} BacklogIsWorkedOff(cfg: Config, s: Sys, nows: seq<int>)
    requires Sound(cfg, s) && s.running && s.pending.None? && ClockSafe(cfg, s.queues)
    requires |nows| >= Backlog(s.queues)
    ensures var e := Cycles(cfg, s, nows); e.running ==> Resting(cfg, e.queues)
    decreases |nows|
  {
    if nows == [] {
      BoundsValidIffRows(s.queues);
    } else if LookAt(cfg, s.queues, s.lastUpdate, nows[0]).Go? {
      CycleConsumes(cfg, s, nows[0]);
      BacklogIsWorkedOff(cfg, Step(cfg, Step(cfg, s, Look(nows[0])), Take(nows[0])), nows[1..]);
    } else {
      IdleCycle(cfg, s, nows[0]);
      RestIsFinal(cfg, Step(cfg, Step(cfg, s, Look(nows[0])), Take(nows[0])), nows[1..]);
    }
  }

  lemma IdleCycle(cfg: Config, s: Sys, now: int)
    requires |cfg.types| == |s.queues| && s.running && s.pending.None? && !LookAt(cfg, s.queues, s.lastUpdate, now).Go?
    ensures var s' := Step(cfg, Step(cfg, s, Look(now)), Take(now));
      s'.queues == s.queues && s'.pending.None? && (s'.running ==> Resting(cfg, s'.queues))
  {
  }

  /** With timeout 0 that means: as many cycles as there are rows empty every buffer. */
  lemma {:induction false} BacklogDrains(cfg: Config, s: Sys, nows: seq<int>)
    requires Sound(cfg, s) && cfg.timeout == 0 && s.running && s.pending.None? && ClockSafe(cfg, s.queues)
    requires |nows| >= Backlog(s.queues)
    ensures Backlog(Cycles(cfg, s, nows).queues) == 0
    decreases |nows|
  {
    if nows != [] {
      var s' := Step(cfg, Step(cfg, s, Look(nows[0])), Take(nows[0]));
      TimeoutZeroNeverWaits(cfg, s, nows[0]);
      if Backlog(s.queues) > 0 {
        CycleConsumes(cfg, s, nows[0]);
        BacklogDrains(cfg, s', nows[1..]);
      } else {
        assert s' == s;
        BacklogDrains(cfg, s, nows[1..]);
      }
    }
  }

  // ----- how many tables a run can publish -----

  /** The rows an event brings. */
  function Brought(e: Event, n: nat): nat { if e.Push? && e.b < n then |e.rows| else 0 }

  function BroughtByAll(events: seq<Event>, n: nat): nat {
    if events == [] then 0 else Brought(events[0], n) + BroughtByAll(events[1..], n)
  }

  lemma {:induction false} SumUpdate(ns: seq<nat>, b: nat, x: nat)
    requires b < |ns|
    ensures Sum(ns[b := ns[b] + x]) == Sum(ns) + x
  {
    if b > 0 {
      SumUpdate(ns[1..], b - 1, x);
      assert ns[b := ns[b] + x][1..] == ns[1..][b - 1 := ns[1..][b - 1] + x];
    } else {
      assert ns[b := ns[b] + x][1..] == ns[1..];
    }
  }

  lemma PushAddsRows(qs: seq<Queue>, b: nat, rows: seq<Row>)
    requires b < |qs| && qs[b].Ok() && rows != []
    ensures Backlog(qs[b := qs[b].Pushed(rows)]) == Backlog(qs) + |rows|
  {
    qs[b].PushedLive(rows);
    assert Waiting(qs[b := qs[b].Pushed(rows)]) == Waiting(qs)[b := Waiting(qs)[b] + |rows|];
    SumUpdate(Waiting(qs), b, |rows|);
  }

  /** A step that publishes pays for it with a row. */
  lemma StepWithinBudget(cfg: Config, s: Sys, e: Event)
    requires Sound(cfg, s) && Admissible(cfg, s, e)
    ensures var s' := Step(cfg, s, e);
      |s'.posts| + Backlog(s'.queues) <= |s.posts| + Backlog(s.queues) + Brought(e, |s.queues|)
  {
    match e
    case Push(b, rows) =>
      if b < |s.queues| {
        assert QueueSound(s.queues[b], cfg.types[b]);
        PushAddsRows(s.queues, b, rows);
      }
    case Look(_) =>
    case Take(now) =>
      if s.running && s.pending.Some? {
        TakeResult(cfg, s, now);
        TakeConsumes(cfg, s, now);
      }
  }

  /** In every well-formed run there are no more tables published than rows waiting at its start or pushed since. */
  lemma {:induction false} PublicationsWithinRows(cfg: Config, s: Sys, events: seq<Event>)
    requires Sound(cfg, s) && WellFormed(cfg, s, events)
    ensures var s' := Run(cfg, s, events);
      |s'.posts| + Backlog(s'.queues) <= |s.posts| + Backlog(s.queues) + BroughtByAll(events, |s.queues|)
    decreases |events|
  {
    if events != [] {
      StepWithinBudget(cfg, s, events[0]);
      StepKeepsSound(cfg, s, events[0]);
      PublicationsWithinRows(cfg, Step(cfg, s, events[0]), events[1..]);
    }
  }
}
