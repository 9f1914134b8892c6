/** Exactly when the reactor gives up, from the times of its passes and the tables it has published. */
module Timeouts {
  import opened Runs
  import opened Threads

  /** The clock when the last table of the run was published, or at its start if none has been. */
  function LastTable(cfg: Config, s: Sys, events: seq<Event>): int
    requires |cfg.types| == |s.queues|
    decreases |events|
  {
    if events == [] then s.lastUpdate
    else
      var n := |events| - 1;
      if events[n].Take? && |Run(cfg, s, events).posts| > |Run(cfg, s, events[..n]).posts| then events[n].now
      else LastTable(cfg, s, events[..n])
  }

  /** Pass i finds no window chosen, more than the timeout after the last table. */
  ghost predicate OverdueAt(cfg: Config, s: Sys, events: seq<Event>, i: nat)
    requires |cfg.types| == |s.queues| && i < |events|
  {
    && events[i].Look? && Run(cfg, s, events[..i]).pending.None?
    && cfg.timeout > 0 && events[i].now - LastTable(cfg, s, events[..i]) > cfg.timeout
  }

  ghost predicate SomeOverdue(cfg: Config, s: Sys, events: seq<Event>)
    requires |cfg.types| == |s.queues|
  {
    exists i :: 0 <= i < |events| && OverdueAt(cfg, s, events, i)
  }

  lemma {:induction false} RunSnoc(cfg: Config, s: Sys, events: seq<Event>, e: Event)
    requires |cfg.types| == |s.queues|
    ensures Run(cfg, s, events + [e]) == Step(cfg, Run(cfg, s, events), e)
  {
    RunAppend(cfg, s, events, [e]);
    assert [e][1..] == [];
  }

  lemma {:induction false} OverdueSnoc(cfg: Config, s: Sys, events: seq<Event>, e: Event)
    requires |cfg.types| == |s.queues|
    ensures SomeOverdue(cfg, s, events + [e]) <==>
            SomeOverdue(cfg, s, events) || OverdueAt(cfg, s, events + [e], |events|)
  {
    var all := events + [e];
    forall i | 0 <= i < |events| ensures OverdueAt(cfg, s, all, i) == OverdueAt(cfg, s, events, i) {
      assert all[..i] == events[..i] && all[i] == events[i];
    }
  }

  /** What a step does to whether the reactor runs, and to its note of the last table. */
  lemma StepRuns(cfg: Config, s: Sys, e: Event, t: Sys)
    requires Sound(cfg, s) && s.running && t == Step(cfg, s, e)
    ensures t.running <==>
            !(e.Look? && s.pending.None? && cfg.timeout > 0 && e.now - s.lastUpdate > cfg.timeout)
    ensures t.lastUpdate == if e.Take? && |t.posts| > |s.posts| then e.now else s.lastUpdate
  {
    if e.Take? && s.pending.Some? { TakeResult(cfg, s, e.now); }
  }

  lemma StoppedRuns(cfg: Config, s: Sys, e: Event)
    requires |cfg.types| == |s.queues| && !s.running
    ensures !Step(cfg, s, e).running
  {
  }

  lemma {:induction false} WellFormedFront(cfg: Config, s: Sys, xs: seq<Event>, ys: seq<Event>)
    requires |cfg.types| == |s.queues| && WellFormed(cfg, s, xs + ys)
    ensures WellFormed(cfg, s, xs)
    decreases |xs|
  {
    if xs != [] {
      assert (xs + ys)[1..] == xs[1..] + ys;
      WellFormedFront(cfg, Step(cfg, s, xs[0]), xs[1..], ys);
    }
  }

  /**
   * The reactor has ended if and only if there is a timeout and some pass found
   * no window chosen more than that timeout after the last table, or after the
   * start if there was none.
   */
  lemma {:induction false} ReactorEndsIff(cfg: Config, s: Sys, events: seq<Event>)
    requires Sound(cfg, s) && s.running && WellFormed(cfg, s, events)
    ensures !Run(cfg, s, events).running <==> SomeOverdue(cfg, s, events)
    ensures Run(cfg, s, events).running ==> Run(cfg, s, events).lastUpdate == LastTable(cfg, s, events)
    decreases |events|
  {
    if events != [] {
      var before, e := events[..|events| - 1], events[|events| - 1];
      assert events == before + [e];
      WellFormedFront(cfg, s, before, [e]);
      ReactorEndsIff(cfg, s, before);
      RunSnoc(cfg, s, before, e);
      OverdueSnoc(cfg, s, before, e);
      OneMorePass(cfg, s, before, e, Run(cfg, s, before), Run(cfg, s, events));
    }
  }

  lemma {:induction false} OneMorePass(cfg: Config, s: Sys, before: seq<Event>, e: Event, s1: Sys, t: Sys)
    requires Sound(cfg, s) && WellFormed(cfg, s, before) && s1 == Run(cfg, s, before) && t == Step(cfg, s1, e)
    requires t == Run(cfg, s, before + [e])
    requires s1.running ==> s1.lastUpdate == LastTable(cfg, s, before)
    ensures t.running <==> s1.running && !OverdueAt(cfg, s, before + [e], |before|)
    ensures t.running ==> t.lastUpdate == LastTable(cfg, s, before + [e])
  {
    RunKeepsSound(cfg, s, before);
    assert (before + [e])[..|before|] == before;
    if s1.running {
      StepRuns(cfg, s1, e, t);
    } else {
      StoppedRuns(cfg, s1, e);
    }
  }

  // ----- the same for the threads -----

  /** The clock of the last Extract that published a table, or at the start. */
  ghost function LastPost(t: Setting, c: Control, schedule: seq<Input>): int
    requires Matches(t, c)
    decreases |schedule|
  {
    if schedule == [] then c.sys.lastUpdate
    else
      var n := |schedule| - 1;
      var before := After(t, c, schedule[..n]).sys.posts;
      if schedule[n].Extract? && |After(t, c, schedule).sys.posts| > |before| then schedule[n].now
      else LastPost(t, c, schedule[..n])
  }

  /** At input i the reactor, which main has not stopped, begins a pass more than the timeout after the last table. */
  ghost predicate LateAt(t: Setting, c: Control, schedule: seq<Input>, i: nat)
    requires Matches(t, c) && i < |schedule|
  {
    var before := After(t, c, schedule[..i]);
    && schedule[i].Clock? && !before.stopped && before.sys.pending.None?
    && t.cfg.timeout > 0 && schedule[i].now - LastPost(t, c, schedule[..i]) > t.cfg.timeout
  }

  ghost predicate SomeLate(t: Setting, c: Control, schedule: seq<Input>)
    requires Matches(t, c)
  {
    exists i :: 0 <= i < |schedule| && LateAt(t, c, schedule, i)
  }

  lemma {:induction false} LateSnoc(t: Setting, c: Control, schedule: seq<Input>, input: Input)
    requires Matches(t, c)
    ensures SomeLate(t, c, schedule + [input]) <==>
            SomeLate(t, c, schedule) || LateAt(t, c, schedule + [input], |schedule|)
  {
    var all := schedule + [input];
    forall i | 0 <= i < |schedule| ensures LateAt(t, c, all, i) == LateAt(t, c, schedule, i) {
      assert all[..i] == schedule[..i] && all[i] == schedule[i];
    }
  }

  /** What one input does to the reactor. */
  lemma NextRuns(t: Setting, c: Control, input: Input, c1: Control)
    requires Matches(t, c) && Sound(t.cfg, c.sys) && c.sys.running && c1 == Next(t, c, input)
    ensures !c1.sys.running <==>
      && input.Clock? && !c.stopped && c.sys.pending.None?
      && t.cfg.timeout > 0 && input.now - c.sys.lastUpdate > t.cfg.timeout
    ensures c1.sys.lastUpdate ==
            if input.Extract? && |c1.sys.posts| > |c.sys.posts| then input.now else c.sys.lastUpdate
  {
    match input
    case Update(_, _) => NextUpdate(t, c, input);
    case Clock(now) =>
      NextHalfPass(t, c, input);
      StepRuns(t.cfg, c.sys, Event.Look(now), Step(t.cfg, c.sys, Event.Look(now)));
    case Extract(now) =>
      NextHalfPass(t, c, input);
      StepRuns(t.cfg, c.sys, Event.Take(now), Step(t.cfg, c.sys, Event.Take(now)));
    case Reap => NextReap(t, c);
  }

  lemma NextStopped(t: Setting, c: Control, input: Input)
    requires Matches(t, c) && !c.sys.running
    ensures !Next(t, c, input).sys.running
  {
    match input
    case Update(_, _) => NextUpdate(t, c, input);
    case Clock(_) => NextHalfPass(t, c, input);
    case Extract(_) => NextHalfPass(t, c, input);
    case Reap => NextReap(t, c);
  }

  lemma Regroup<T>(a: seq<T>, b: seq<T>, c: seq<T>)
    ensures a + (b + c) == (a + b) + c
  {
  }

  lemma {:induction false} StepsUnroll(t: Setting, c: Control, input: Input, later: seq<Input>)
    requires Matches(t, c)
    ensures Steps(t, c, [input] + later) == StepsOf(t, c, input) + Steps(t, Next(t, c, input), later)
  {
    assert ([input] + later)[1..] == later;
  }

  lemma {:induction false} StepsSnoc(t: Setting, c: Control, schedule: seq<Input>, input: Input)
    requires Matches(t, c)
    ensures Steps(t, c, schedule + [input]) == Steps(t, c, schedule) + StepsOf(t, After(t, c, schedule), input)
    decreases |schedule|
  {
    if schedule == [] {
      StepsUnroll(t, c, input, []);
      assert [input] + [] == [] + [input];
      assert StepsOf(t, c, input) + [] == [] + StepsOf(t, c, input);
    } else {
      var first, later, c1 := schedule[0], schedule[1..], Next(t, c, schedule[0]);
      assert schedule == [first] + later && schedule + [input] == [first] + (later + [input]);
      StepsUnroll(t, c, first, later);
      StepsUnroll(t, c, first, later + [input]);
      StepsSnoc(t, c1, later, input);
      Regroup(StepsOf(t, c, first), Steps(t, c1, later), StepsOf(t, After(t, c1, later), input));
    }
  }

  lemma {:induction false} NotesKept(t: Setting, c: Control, schedule: seq<Input>, input: Input, c1: Control,
        c2: Control)
    requires Matches(t, c) && c1 == After(t, c, schedule) && c2 == After(t, c, schedule + [input])
    requires c2 == Next(t, c1, input) && Sound(t.cfg, c1.sys)
    requires c1.sys.running ==> c1.sys.lastUpdate == LastPost(t, c, schedule)
    ensures !c2.sys.running <==> !c1.sys.running || LateAt(t, c, schedule + [input], |schedule|)
    ensures c2.sys.running ==> c2.sys.lastUpdate == LastPost(t, c, schedule + [input])
  {
    assert (schedule + [input])[..|schedule|] == schedule;
    if c1.sys.running { NextRuns(t, c1, input, c2); } else { NextStopped(t, c1, input); }
  }

  /**
   * Under every schedule of the threads the reactor loop ends if and only if
   * there is a timeout and the loop, not stopped by main and with no window
   * chosen, begins a pass more than that timeout after the last table or, if
   * there was none, after the start.
   */
  lemma {:induction false} LoopEndsIff(t: Setting, c: Control, schedule: seq<Input>)
    requires Matches(t, c) && Sound(t.cfg, c.sys) && c.sys.running && WellFormed(t.cfg, c.sys, Steps(t, c, schedule))
    ensures !After(t, c, schedule).sys.running <==> SomeLate(t, c, schedule)
    ensures After(t, c, schedule).sys.running ==> After(t, c, schedule).sys.lastUpdate == LastPost(t, c, schedule)
    decreases |schedule|
  {
    if schedule != [] {
      var before, input := schedule[..|schedule| - 1], schedule[|schedule| - 1];
      assert schedule == before + [input];
      AfterSnoc(t, c, before, input);
      StepsSnoc(t, c, before, input);
      WellFormedFront(t.cfg, c.sys, Steps(t, c, before), StepsOf(t, After(t, c, before), input));
      LoopEndsIff(t, c, before);
      AfterIsRun(t, c, before);
      RunKeepsSound(t.cfg, c.sys, Steps(t, c, before));
      LateSnoc(t, c, before, input);
      NotesKept(t, c, before, input, After(t, c, before), After(t, c, schedule));
    }
  }
}
