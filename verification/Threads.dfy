/** The merger's threads on values: listener and reactor loop, and main, which stops both once one has ended. */
module Threads {
  import opened Results
  import opened TimeTables
  import opened TableBuffers
  import opened NameOrder
  import opened Runs
  import opened RunProgress

  /**
   * What the environment feeds the threads: an update of a PV, the clock for
   * one half of a reactor pass, or the turn of main to look for an ended loop.
   */
  datatype Input = Update(name: string, value: Value) | Clock(now: int) | Extract(now: int) | Reap

  /** The keys of the table, the types of their buffers, and the configuration. */
  datatype Setting = Setting(cfg: Config, names: seq<string>, types: seq<Option<seq<ColumnSpec>>>)

  /**
   * The step system, whether the listener loop is still alive, and whether main
   * has closed the PV and asked both loops to stop.
   */
  datatype Control = Control(sys: Sys, listening: bool, stopped: bool)

  ghost predicate Matches(t: Setting, c: Control) {
    |t.names| == |t.types| == |t.cfg.types| == |c.sys.queues|
  }

  /** An update of a PV of the table. */
  predicate Known(t: Setting, input: Input) { input.Update? && input.name in t.names }

  ghost predicate Fitting(t: Setting, input: Input)
    requires |t.names| == |t.types| && Known(t, input)
  {
    Accepts(t.types[IndexOf(t.names, input.name)], input.value)
  }

  /**
   * An update of a known PV that the table refuses ends the listener loop; one
   * of an unknown PV does not.
   */
  ghost predicate EndsListener(t: Setting, input: Input)
    requires |t.names| == |t.types|
  {
    Known(t, input) && !Fitting(t, input)
  }

  predicate SomeLoopEnded(c: Control) { !c.listening || !c.sys.running }

  /** The steps one input amounts to. */
  ghost function StepsOf(t: Setting, c: Control, input: Input): seq<Event>
    requires Matches(t, c)
  {
    match input
    case Update(name, value) =>
      if c.listening && Known(t, input) && Fitting(t, input)
      then [Event.Push(IndexOf(t.names, name), RowsOf(value.columns.value))] else []
    case Clock(now) => if c.stopped then [] else [Event.Look(now)]
    case Extract(now) => if c.stopped then [] else [Event.Take(now)]
    case Reap => []
  }

  ghost function Next(t: Setting, c: Control, input: Input): (c': Control)
    requires Matches(t, c)
    ensures Matches(t, c')
  {
    var reaped := input.Reap? && SomeLoopEnded(c);
    Control(Run(t.cfg, c.sys, StepsOf(t, c, input)),
      c.listening && !EndsListener(t, input) && !reaped,
      c.stopped || reaped)
  }

  ghost function After(t: Setting, c: Control, schedule: seq<Input>): (c': Control)
    requires Matches(t, c)
    ensures Matches(t, c')
    decreases |schedule|
  {
    if schedule == [] then c else After(t, Next(t, c, schedule[0]), schedule[1..])
  }

  /** The steps a schedule amounts to. */
  ghost function Steps(t: Setting, c: Control, schedule: seq<Input>): seq<Event>
    requires Matches(t, c)
    decreases |schedule|
  {
    if schedule == [] then []
    else StepsOf(t, c, schedule[0]) + Steps(t, Next(t, c, schedule[0]), schedule[1..])
  }

  lemma {:induction false} OneStep(cfg: Config, s: Sys, e: Event)
    requires |cfg.types| == |s.queues|
    ensures Run(cfg, s, [e]) == Step(cfg, s, e)
  {
    assert [e][1..] == [];
  }

  lemma NextUpdate(t: Setting, c: Control, input: Input)
    requires Matches(t, c) && input.Update?
    ensures Next(t, c, input) ==
            if !c.listening || !Known(t, input) then c
            else if !Fitting(t, input) then c.(listening := false)
            else
              var e := Event.Push(IndexOf(t.names, input.name), RowsOf(input.value.columns.value));
              c.(sys := Step(t.cfg, c.sys, e))
  {
    if c.listening && Known(t, input) && Fitting(t, input) { OneStep(t.cfg, c.sys, StepsOf(t, c, input)[0]); }
  }

  lemma NextHalfPass(t: Setting, c: Control, input: Input)
    requires Matches(t, c) && (input.Clock? || input.Extract?)
    ensures Next(t, c, input) ==
            if c.stopped then c
            else c.(sys := Step(t.cfg, c.sys, if input.Clock? then Event.Look(input.now) else Event.Take(input.now)))
  {
    if !c.stopped { OneStep(t.cfg, c.sys, StepsOf(t, c, input)[0]); }
  }

  lemma NextReap(t: Setting, c: Control)
    requires Matches(t, c)
    ensures Next(t, c, Reap) == if SomeLoopEnded(c) then c.(listening := false, stopped := true) else c
  {
  }

  /** The step system does the steps of the schedule. */
  lemma {:induction false} AfterIsRun(t: Setting, c: Control, schedule: seq<Input>)
    requires Matches(t, c)
    ensures After(t, c, schedule).sys == Run(t.cfg, c.sys, Steps(t, c, schedule))
    decreases |schedule|
  {
    if schedule != [] {
      var c1 := Next(t, c, schedule[0]);
      AfterIsRun(t, c1, schedule[1..]);
      RunAppend(t.cfg, c.sys, StepsOf(t, c, schedule[0]), Steps(t, c1, schedule[1..]));
    }
  }

  lemma {:induction false} AfterSnoc(t: Setting, c: Control, schedule: seq<Input>, input: Input)
    requires Matches(t, c)
    ensures After(t, c, schedule + [input]) == Next(t, After(t, c, schedule), input)
    decreases |schedule|
  {
    if schedule == [] {
      assert (schedule + [input])[1..] == [];
    } else {
      AfterSnoc(t, Next(t, c, schedule[0]), schedule[1..], input);
      assert (schedule + [input])[1..] == schedule[1..] + [input];
    }
  }

  // ----- when the listener ends -----

  /** Nothing of the schedule ends the listener: no refused update of a known PV, no stop because the reactor ended. */
  ghost predicate LeavesListening(t: Setting, c: Control, schedule: seq<Input>)
    requires Matches(t, c)
  {
    forall i :: 0 <= i < |schedule| ==>
      !EndsListener(t, schedule[i]) && (schedule[i].Reap? ==> After(t, c, schedule[..i]).sys.running)
  }

  /**
   * The listener is alive after a schedule exactly when it was before, every
   * update of a known PV fitted, and main never found the reactor ended.
   */
  lemma {:induction false} ListensIff(t: Setting, c: Control, schedule: seq<Input>)
    requires Matches(t, c)
    ensures After(t, c, schedule).listening <==> c.listening && LeavesListening(t, c, schedule)
    decreases |schedule|
  {
    if schedule != [] {
      var n := |schedule| - 1;
      var before := schedule[..n];
      ListensIff(t, c, before);
      AfterSnoc(t, c, before, schedule[n]);
      assert schedule == before + [schedule[n]];
      assert forall i :: 0 <= i < n ==> before[i] == schedule[i] && before[..i] == schedule[..i];
    }
  }

  /** Once it has ended, it stays so, and no update reaches the table any more. */
  lemma {:induction false} DeafForGood(t: Setting, c: Control, schedule: seq<Input>)
    requires Matches(t, c) && !c.listening
    ensures !After(t, c, schedule).listening
    ensures forall i :: 0 <= i < |Steps(t, c, schedule)| ==> !Steps(t, c, schedule)[i].Push?
    decreases |schedule|
  {
    if schedule != [] { DeafForGood(t, Next(t, c, schedule[0]), schedule[1..]); }
  }

  lemma {:induction false} NoPushBringsNothing(events: seq<Event>, n: nat)
    requires forall i :: 0 <= i < |events| ==> !events[i].Push?
    ensures BroughtByAll(events, n) == 0
  {
    if events != [] { NoPushBringsNothing(events[1..], n); }
  }

  /**
   * One malformed update ends the merger: whatever comes behind a refused
   * update of a known PV, fitting updates included, there are never more
   * further tables than rows were waiting.
   */
  lemma {:induction false} OneMisfitEndsMerger(t: Setting, c: Control, misfit: Input, c1: Control, later: seq<Input>)
    requires Matches(t, c) && Sound(t.cfg, c.sys) && EndsListener(t, misfit) && c1 == Next(t, c, misfit)
    requires WellFormed(t.cfg, c.sys, Steps(t, c1, later))
    ensures c1.sys == c.sys
    ensures var s' := After(t, c1, later).sys;
      |s'.posts| + Backlog(s'.queues) <= |c.sys.posts| + Backlog(c.sys.queues)
  {
    DeafForGood(t, c1, later);
    NoPushBringsNothing(Steps(t, c1, later), |c.sys.queues|);
    AfterIsRun(t, c1, later);
    PublicationsWithinRows(t.cfg, c.sys, Steps(t, c1, later));
  }

  /** Once main has had its turn behind an ended loop, no input changes anything. */
  lemma {:induction false} ReapedForGood(t: Setting, c: Control, later: seq<Input>)
    requires Matches(t, c) && SomeLoopEnded(c)
    ensures After(t, Next(t, c, Reap), later) == Control(c.sys, false, true)
  {
    StoppedStays(t, Next(t, c, Reap), later);
  }

  lemma {:induction false} StoppedStays(t: Setting, c: Control, later: seq<Input>)
    requires Matches(t, c) && c.stopped && !c.listening
    ensures After(t, c, later) == c
    decreases |later|
  {
    if later != [] { StoppedStays(t, c, later[1..]); }
  }

  // ----- passes of the reactor -----

  /** Whole passes of the reactor loop, at the given times. */
  function Passes(nows: seq<int>): seq<Input> {
    if nows == [] then [] else [Clock(nows[0])] + ([Extract(nows[0])] + Passes(nows[1..]))
  }

  lemma {:induction false} AfterFirst(t: Setting, c: Control, input: Input, later: seq<Input>)
    requires Matches(t, c)
    ensures After(t, c, [input] + later) == After(t, Next(t, c, input), later)
  {
    assert ([input] + later)[1..] == later;
  }

  /** As long as main has not stopped them, passes of the loop are cycles of the step system. */
  lemma {:induction false} PassesAreCycles(t: Setting, c: Control, nows: seq<int>)
    requires Matches(t, c) && !c.stopped
    ensures After(t, c, Passes(nows)) == c.(sys := Cycles(t.cfg, c.sys, nows))
    decreases |nows|
  {
    if nows != [] {
      var now := nows[0];
      var c1 := Next(t, c, Clock(now));
      var c2 := Next(t, c1, Extract(now));
      NextHalfPass(t, c, Clock(now));
      NextHalfPass(t, c1, Extract(now));
      AfterFirst(t, c, Clock(now), [Extract(now)] + Passes(nows[1..]));
      AfterFirst(t, c1, Extract(now), Passes(nows[1..]));
      PassesAreCycles(t, c2, nows[1..]);
    }
  }

  /** So with timeout 0 a loop that makes as many passes as rows are waiting has taken them all. */
  lemma {:induction false} PassesDrain(t: Setting, c: Control, nows: seq<int>)
    requires Matches(t, c) && !c.stopped && Sound(t.cfg, c.sys) && t.cfg.timeout == 0
    requires c.sys.running && c.sys.pending.None? && ClockSafe(t.cfg, c.sys.queues) && |nows| >= Backlog(c.sys.queues)
    ensures Backlog(After(t, c, Passes(nows)).sys.queues) == 0
  {
    PassesAreCycles(t, c, nows);
    BacklogDrains(t.cfg, c.sys, nows);
  }
}
