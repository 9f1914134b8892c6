/** The running merger: listener, reactor and main on one shared table. */
module Mergers {
  import opened Results
  import opened TimeStamps
  import opened TimeTables
  import opened TableBuffers
  import opened BufferLists
  import opened MergeTrace
  import opened Alignment
  import opened TimeAlignedTables
  import opened NameOrder
  import opened Selection
  import opened Runs
  import opened Frontiers
  import opened RunSoundness
  import opened PostedTables
  import opened Naming
  import opened RunProgress
  import opened Threads
  import opened Timeouts
  import opened Origins

  /** A type that is there stays whatever is pushed. */
  lemma TypeStays(types: seq<Option<seq<ColumnSpec>>>, b: nat, value: Value)
    requires b < |types| && types[b].Some?
    ensures TypeAfter(types[b], value) == types[b] && types[b := types[b]] == types
  {
  }

  function PublishedAll(specs: seq<ColumnSpec>, log: seq<Extraction>): (r: seq<Value>)
    ensures |r| == |log| && forall p :: 0 <= p < |log| ==> r[p] == Published(specs, log[p])
  {
    seq(|log|, p requires 0 <= p < |log| => Published(specs, log[p]))
  }

  lemma PublishedSnoc(specs: seq<ColumnSpec>, log: seq<Extraction>, e: Extraction)
    ensures PublishedAll(specs, log + [e]) == PublishedAll(specs, log) + [Published(specs, e)]
  {
  }

  class Merger {
    const table: TimeAlignedTable
    const period: nat      // nanoseconds
    const timeout: nat     // nanoseconds; 0 disables it
    var pending: Option<Window>
    var lastUpdate: int
    var running: bool      // the reactor loop has not ended by itself
    var listening: bool    // the listener loop is alive
    var stopped: bool      // main has closed the PV and asked both loops to stop
    var posts: seq<Value>
    ghost var log: seq<Extraction>

    ghost function Cfg(): Config
      reads table`buffers, table.buffers
    {
      Config(TypesOfAll(table.Specs()), period, timeout)
    }

    /** The abstract state of the step system. */
    ghost function State(): (s: Sys)
      reads this, table, table.buffers
      ensures |s.queues| == |Cfg().types|
    {
      Sys(table.Qs(), pending, lastUpdate, running, log)
    }

    ghost function Settings(): Setting
      reads table, table.buffers
    {
      Setting(Cfg(), table.names, table.HeldTypes())
    }

    /** The abstract state with the state of the threads. */
    ghost function Threads(): (c: Control)
      reads this, table, table.buffers
    {
      Control(State(), listening, stopped)
    }

    ghost predicate Valid()
      reads this`posts, this`log, table, table.buffers
    {
      && table.Valid() && table.typ.Some?
      && posts == PublishedAll(table.typ.value, log)
      && forall p :: 0 <= p < |posts| ==> Fits(table.typ.value, posts[p])
    }

    constructor (table: TimeAlignedTable, period: nat, timeout: nat, now: int)
      requires period > 0 && (timeout == 0 || timeout > period)
      requires table.Valid() && table.typ.Some?
      ensures Valid() && this.table == table && this.period == period && this.timeout == timeout
      ensures Threads() == Control(Sys(table.Qs(), None, now, true, []), true, false)
    {
      this.table, this.period, this.timeout := table, period, timeout;
      pending, lastUpdate, running, posts, log := None, now, true, [], [];
      listening, stopped := true, false;
    }

    /**
     * One pass of the listener loop. An update of an unknown PV changes
     * nothing; a refused one of a known PV changes nothing but ends the loop.
     */
    method Deliver(name: string, value: Value) returns (r: Result<()>)
      requires Valid() && Format(value) && listening
      modifies this`listening, table`typ, table.buffers
      ensures Valid() && table.HeldTypes() == old(table.HeldTypes())
      ensures r.Ok? <==> name in table.names && Accepts(old(table.HeldTypes())[IndexOf(table.names, name)], value)
      ensures listening <==> r.Ok? || name !in table.names
      ensures r.Err? ==> State() == old(State())
      ensures r.Ok? ==>
        State() == Step(Cfg(), old(State()), Event.Push(IndexOf(table.names, name), RowsOf(value.columns.value)))
    {
      r := PushUpdate(name, value);
      if r.Err? && r.error != OutOfRange {
        EndListening();
      }
    }

    method EndListening()
      modifies this`listening
      ensures Valid() == old(Valid()) && table.HeldTypes() == old(table.HeldTypes()) && State() == old(State())
      ensures !listening
    {
      listening := false;
    }

    method PushUpdate(name: string, value: Value) returns (r: Result<()>)
      requires Valid() && Format(value)
      modifies table`typ, table.buffers
      ensures Valid() && table.HeldTypes() == old(table.HeldTypes())
      ensures r.Ok? <==> name in table.names && Accepts(old(table.HeldTypes())[IndexOf(table.names, name)], value)
      ensures r.Err? ==> r.error == if name in table.names then RuntimeError else OutOfRange
      ensures r.Err? ==> State() == old(State())
      ensures r.Ok? ==>
        State() == Step(Cfg(), old(State()), Event.Push(IndexOf(table.names, name), RowsOf(value.columns.value)))
    {
      ghost var cfg, s := Cfg(), State();
      r := PushTyped(name, value);
      if r.Ok? { PushedIs(cfg, s, IndexOf(table.names, name), value, State()); }
    }

    /** Once the table has its type no push changes a type. */
    method PushTyped(name: string, value: Value) returns (r: Result<()>)
      requires table.Valid() && table.typ.Some? && Format(value)
      modifies table`typ, table.buffers
      ensures table.Valid() && table.typ == old(table.typ) && table.HeldTypes() == old(table.HeldTypes())
      ensures r.Ok? <==> name in table.names && Accepts(old(table.HeldTypes())[IndexOf(table.names, name)], value)
      ensures r.Err? ==> r.error == if name in table.names then RuntimeError else OutOfRange
      ensures r.Err? ==> table.Qs() == old(table.Qs())
      ensures r.Ok? ==> PushedAt(table.Qs(), old(table.Qs()), IndexOf(table.names, name), value)
    {
      ghost var types := table.HeldTypes();
      r := table.Push(name, value);
      if name in table.names { TypeStays(types, IndexOf(table.names, name), value); }
    }

    /** The tests of the reactor loop: give up, wait, or choose the window to extract. */
    method Decide(now: int) returns (d: Decision)
      requires table.Structure()
      ensures d == LookAt(Cfg(), table.Qs(), lastUpdate, now)
      ensures d.TimedOut? <==> timeout > 0 && now - lastUpdate > timeout
      ensures !d.TimedOut? ==> (d.Sleep? <==> Resting(Cfg(), table.Qs()))
    {
      if timeout > 0 && now - lastUpdate > timeout {
        return TimedOut;
      }
      var bounds := table.GetTimebounds();
      if !bounds.valid {
        return Sleep;
      }
      var shortest := Ticks(bounds.earliestEnd) - Ticks(bounds.earliestStart);
      var longest := Ticks(bounds.latestEnd) - Ticks(bounds.earliestStart);
      if shortest < period && longest < timeout {
        return Sleep;
      }
      return Go(Window(bounds.earliestStart, AddTicks(bounds.earliestStart, period)));
    }

    /** The reactor pass up to the decision. */
    method Look(now: int)
      requires table.Structure()
      modifies this`running, this`pending
      ensures Valid() == old(Valid()) && Settings() == old(Settings())
      ensures State() == Step(Cfg(), old(State()), Event.Look(now))
    {
      if !running || pending.Some? {
        return;
      }
      Choose(now);
    }

    method Choose(now: int)
      requires table.Structure() && running && pending.None?
      modifies this`running, this`pending
      ensures Valid() == old(Valid()) && Settings() == old(Settings())
      ensures State() == Step(Cfg(), old(State()), Event.Look(now))
    {
      ghost var cfg, s := Cfg(), State();
      var d := Decide(now);
      LookResult(cfg, s, now, d);
      Act(d);
    }

    method Act(d: Decision)
      modifies this`running, this`pending
      ensures Valid() == old(Valid()) && Settings() == old(Settings())
      ensures State() == Decided(old(State()), d)
    {
      match d {
        case TimedOut => running := false;
        case Sleep =>
        case Go(w) => pending := Some(w);
      }
    }

    /** The rest of the pass: extract the chosen window and post it. */
    method TakeWindow(now: int)
      requires Valid()
      modifies this`pending, this`lastUpdate, this`running, this`posts, this`log, table.buffers
      ensures Valid() && Settings() == old(Settings())
      ensures State() == Step(Cfg(), old(State()), Event.Take(now))
    {
      if !running || pending.None? {
        return;
      }
      TakeOutcome(Cfg(), State(), now, pending.value);
      TakePending(now);
    }

    method TakePending(now: int)
      requires Valid() && running && pending.Some?
      modifies this`pending, this`lastUpdate, this`running, this`posts, this`log, table.buffers
      ensures Valid() && Settings() == old(Settings())
      ensures State() == if Gt(old(pending).value.start, old(pending).value.end)
                         then old(State()).(pending := None, running := false)
                         else Taken(Cfg(), old(State()), old(pending).value, now)
    {
      ghost var s, cfg := State(), Cfg();
      var w := pending.value;
      var value := ExtractWindow(w);
      if value.Err? {
        GiveUp();
        return;
      }
      Post(value.value, Extracted(s.queues, cfg.types, w.start, w.end), now);
      TakenIs(cfg, s, w, now, State());
    }

    /** An exception of extract ends the reactor thread. */
    method GiveUp()
      modifies this`pending, this`running
      ensures Valid() == old(Valid()) && Settings() == old(Settings())
      ensures State() == old(State()).(pending := None, running := false)
    {
      pending, running := None, false;
    }

    method ExtractWindow(w: Window) returns (r: Result<Value>)
      requires Valid()
      modifies table.buffers
      ensures Valid() && Settings() == old(Settings())
      ensures r.Err? <==> Gt(w.start, w.end)
      ensures r.Err? ==> State() == old(State())
      ensures r.Ok? ==>
        State() == old(State()).(queues := AfterExtract(old(table.Qs()), old(Cfg()).types, w.start, w.end))
      ensures r.Ok? ==>
        r.value == Published(table.typ.value, Extracted(old(table.Qs()), old(Cfg()).types, w.start, w.end))
      ensures r.Ok? ==> Fits(table.typ.value, r.value)
    {
      r := table.Extract(w.start, w.end);
    }

    /** pv_.post, and the note of its time. */
    method Post(value: Value, ghost e: Extraction, now: int)
      requires Valid() && value == Published(table.typ.value, e) && Fits(table.typ.value, value)
      modifies this`pending, this`lastUpdate, this`posts, this`log
      ensures Valid() && Settings() == old(Settings())
      ensures State() == old(State()).(pending := None, lastUpdate := now, posts := old(log) + [e])
    {
      Record(value, e);
      NoteTime(now);
    }

    method NoteTime(now: int)
      modifies this`pending, this`lastUpdate
      ensures Valid() == old(Valid()) && Settings() == old(Settings())
      ensures State() == old(State()).(pending := None, lastUpdate := now)
    {
      pending, lastUpdate := None, now;
    }

    method Record(value: Value, ghost e: Extraction)
      requires Valid() && value == Published(table.typ.value, e) && Fits(table.typ.value, value)
      modifies this`posts, this`log
      ensures Valid() && Settings() == old(Settings())
      ensures State() == old(State()).(posts := old(log) + [e])
    {
      PublishedSnoc(table.typ.value, log, e);
      ghost var more := posts + [value];
      assert forall p :: 0 <= p < |more| ==> Fits(table.typ.value, more[p]);
      log, posts := log + [e], posts + [value];
    }

    method EndBoth()
      modifies this`listening, this`stopped
      ensures Valid() == old(Valid()) && Settings() == old(Settings())
      ensures Threads() == old(Threads()).(listening := false, stopped := true)
    {
      listening, stopped := false, true;
    }

    /** The turn of main: once a loop has ended it closes the PV and asks the other one to stop. */
    method StopOthers()
      requires Valid()
      modifies this`listening, this`stopped
      ensures Valid() == old(Valid()) && Settings() == old(Settings())
      ensures Threads() == Next(old(Settings()), old(Threads()), Input.Reap)
    {
      NextReap(Settings(), Threads());
      if !listening || !running {
        EndBoth();
      }
    }

    /** An update as the listener loop gets it, if it is still alive. */
    method Hear(name: string, value: Value)
      requires Valid() && Format(value)
      modifies this`listening, table`typ, table.buffers
      ensures Valid() && Settings() == old(Settings())
      ensures Threads() == Next(old(Settings()), old(Threads()), Update(name, value))
    {
      NextUpdate(Settings(), Threads(), Update(name, value));
      if listening {
        var r := Deliver(name, value);
      }
    }

    /** The first half of a pass of the reactor loop, unless main has stopped it. */
    method FirstHalf(now: int)
      requires Valid()
      modifies this`running, this`pending
      ensures Valid() == old(Valid()) && Settings() == old(Settings())
      ensures Threads() == Next(old(Settings()), old(Threads()), Clock(now))
    {
      NextHalfPass(Settings(), Threads(), Clock(now));
      if !stopped {
        Look(now);
      }
    }

    method SecondHalf(now: int)
      requires Valid()
      modifies this`pending, this`lastUpdate, this`running, this`posts, this`log, table.buffers
      ensures Valid() && Settings() == old(Settings())
      ensures Threads() == Next(old(Settings()), old(Threads()), Extract(now))
    {
      NextHalfPass(Settings(), Threads(), Extract(now));
      if !stopped {
        TakeWindow(now);
      }
    }

    /** One input to the threads. */
    method Handle(input: Input)
      requires Valid() && (input.Update? ==> Format(input.value))
      modifies this, table`typ, table.buffers
      ensures Valid() && Settings() == old(Settings())
      ensures Threads() == Next(old(Settings()), old(Threads()), input)
    {
      match input {
        case Update(name, value) =>
          Hear(name, value);
        case Clock(now) =>
          FirstHalf(now);
        case Extract(now) =>
          SecondHalf(now);
        case Reap =>
          StopOthers();
      }
    }

    /** The threads under one schedule: the state afterwards is that of the run of its steps. */
    method Run(schedule: seq<Input>)
      requires Valid()
      requires forall i :: 0 <= i < |schedule| && schedule[i].Update? ==> Format(schedule[i].value)
      modifies this, table`typ, table.buffers
      ensures Valid() && Settings() == old(Settings())
      ensures Threads() == After(Settings(), old(Threads()), schedule)
      ensures State() == Runs.Run(Cfg(), old(State()), Steps(Settings(), old(Threads()), schedule))
    {
      ghost var t, c := Settings(), Threads();
      for i := 0 to |schedule|
        invariant Valid() && Settings() == t
        invariant After(t, Threads(), schedule[i..]) == After(t, c, schedule)
      {
        Handle(schedule[i]);
        assert schedule[i..][1..] == schedule[i + 1..];
      }
      AfterIsRun(t, c, schedule);
    }

    /**
     * What the posted values of an orderly schedule show, exactly: their time
     * columns strictly ascend, within every value and from one to the next,
     * unless a take that kept a row before the end of its window was followed
     * by another table; for every PV each row is blank, unwritten or a row of
     * an update that was taken; and no row is unwritten unless a take found a
     * row from before its window. Where the flag of a PV is set, each of its
     * data columns has, under its own name and element type, the cell of one
     * and the same row of an update of that PV. The reactor loop ends exactly
     * by a pass that comes later than the timeout after the last value.
     */
    method RunOrderly(schedule: seq<Input>, ghost floor: TimeStamp, ghost hist: seq<seq<Row>>, ghost early: seq<Input>)
      requires Valid()
      requires forall i :: 0 <= i < |schedule| && schedule[i].Update? ==> Format(schedule[i].value)
      requires Inv(Cfg(), State(), floor) && HistInv(Cfg(), State(), hist) && AllFlagged(log)
      requires Orderly(Cfg(), State(), floor, Steps(Settings(), Threads(), schedule))
      requires HistFrom(hist, Settings(), early)
      modifies this, table`typ, table.buffers
      ensures Valid() && Settings() == old(Settings())
      ensures TimesAscend(posts) <==>
              KeptUntilLast(old(Cfg()), old(State()), Steps(Settings(), old(Threads()), schedule))
      ensures AllShowOnly(posts, table.Specs(), hist, Steps(Settings(), old(Threads()), schedule))
      ensures AllFlagsThere(posts, table.Specs()) <==>
              NeverEarly(old(Cfg()), old(State()), Steps(Settings(), old(Threads()), schedule))
      ensures forall p :: 0 <= p < |posts| ==> Typed(posts[p], table.names, table.Specs(), table.colSep)
      ensures AllTraced(posts, table.names, table.Specs(), table.colSep, early + schedule)
      ensures old(running) ==> (!running <==> SomeLate(old(Settings()), old(Threads()), schedule))
    {
      ghost var t, c := Settings(), Threads();
      Run(schedule);
      table.TypesKnown();
      ScheduleTells(t, c, schedule, floor, hist, early, table.typ.value, table.Specs(), table.labelSep, table.colSep,
        posts, Threads());
    }
  }

  /** The theorems about runs, for the values posted under a schedule. */
  lemma {:induction false} ScheduleTells(t: Setting, c: Control, schedule: seq<Input>, floor: TimeStamp,
        hist: seq<seq<Row>>, early: seq<Input>, full: seq<ColumnSpec>, specs: seq<seq<ColumnSpec>>, labelSep: string,
        colSep: string, posts: seq<Value>, c1: Control)
    requires Threads.Matches(t, c) && c1 == After(t, c, schedule)
    requires c1.sys == Runs.Run(t.cfg, c.sys, Steps(t, c, schedule))
    requires Inv(t.cfg, c.sys, floor) && HistInv(t.cfg, c.sys, hist) && AllFlagged(c.sys.posts)
    requires Orderly(t.cfg, c.sys, floor, Steps(t, c, schedule)) && HistFrom(hist, t, early)
    requires t.cfg.types == TypesOfAll(specs) && LaidOut(full, t.names, specs, labelSep, colSep)
    requires forall b :: 0 <= b < |specs| ==>
      t.types[b].Some? && TimesFirst(t.types[b].value) && specs[b] == SpecsOfType(t.types[b])
    requires posts == PublishedAll(full, c1.sys.posts) && forall p :: 0 <= p < |posts| ==> Fits(full, posts[p])
    ensures TimesAscend(posts) <==> KeptUntilLast(t.cfg, c.sys, Steps(t, c, schedule))
    ensures AllShowOnly(posts, specs, hist, Steps(t, c, schedule))
    ensures AllFlagsThere(posts, specs) <==> NeverEarly(t.cfg, c.sys, Steps(t, c, schedule))
    ensures forall p :: 0 <= p < |posts| ==> Typed(posts[p], t.names, specs, colSep)
    ensures AllTraced(posts, t.names, specs, colSep, early + schedule)
    ensures c.sys.running ==> (!c1.sys.running <==> SomeLate(t, c, schedule))
  {
    var events := Steps(t, c, schedule);
    OrderlyIsWellFormed(t.cfg, c.sys, floor, events);
    if c.sys.running { LoopEndsIff(t, c, schedule); }
    TimesIncreaseIff(t.cfg, c.sys, floor, events);
    FlagsWrittenIff(t.cfg, c.sys, events);
    RunKeepsHist(t.cfg, c.sys, hist, events);
    PostsAreSound(t.cfg, specs, c1.sys, full, posts, HistAfter(hist, events));
    forall b | 0 <= b < |hist| ensures HistAfter(hist, events)[b] == hist[b] + PushedRows(events, b) {
      HistIsPushed(hist, events, b);
    }
    ValuesAreTraced(t, c, full, posts, specs, labelSep, colSep, hist, early, schedule);
  }

  /** Posted values have the columns laid out, and their valid cells come from the updates. */
  lemma {:induction false} ValuesAreTraced(t: Setting, c: Control, full: seq<ColumnSpec>, posts: seq<Value>,
        specs: seq<seq<ColumnSpec>>, labelSep: string, colSep: string, hist: seq<seq<Row>>, early: seq<Input>,
        schedule: seq<Input>)
    requires Threads.Matches(t, c) && LaidOut(full, t.names, specs, labelSep, colSep) && HistFrom(hist, t, early)
    requires |specs| == |t.types| && forall b :: 0 <= b < |specs| ==>
      t.types[b].Some? && TimesFirst(t.types[b].value) && specs[b] == SpecsOfType(t.types[b])
    requires forall p :: 0 <= p < |posts| ==> Fits(full, posts[p])
    requires AllShowOnly(posts, specs, hist, Steps(t, c, schedule))
    ensures forall p :: 0 <= p < |posts| ==> Typed(posts[p], t.names, specs, colSep)
    ensures AllTraced(posts, t.names, specs, colSep, early + schedule)
  {
    forall p | 0 <= p < |posts| ensures Typed(posts[p], t.names, specs, colSep) {
      FittingIsTyped(full, posts[p], t.names, specs, labelSep, colSep);
    }
    PostsAreTraced(t, c, posts, specs, colSep, hist, early, schedule);
  }

  lemma PostsAreSound(cfg: Config, specs: seq<seq<ColumnSpec>>, s: Sys, full: seq<ColumnSpec>, posts: seq<Value>,
        hist: seq<seq<Row>>)
    requires HistInv(cfg, s, hist) && cfg.types == TypesOfAll(specs)
    requires posts == PublishedAll(full, s.posts) && forall p :: 0 <= p < |posts| ==> Fits(full, posts[p])
    ensures (TimesAscend(posts) <==> TimesIncrease(s.posts)) && |hist| == |specs|
    ensures forall p, b :: 0 <= p < |posts| && 0 <= b < |hist| ==> ShowsOnly(posts[p], specs, b, hist[b])
    ensures AllFlagsThere(posts, specs) <==> AllFlagged(s.posts)
  {
    PublishedAscend(full, s.posts, posts);
    forall p, b | 0 <= p < |posts| && 0 <= b < |specs| ensures FlagsAgree(s.posts[p], posts[p], specs, b) {
      PostIsSound(cfg, specs, s.posts, full, posts, hist, p, b);
    }
    forall p, b | 0 <= p < |posts| && 0 <= b < |hist| ensures ShowsOnly(posts[p], specs, b, hist[b]) {
      PostIsSound(cfg, specs, s.posts, full, posts, hist, p, b);
    }
    FlagsCarryOver(s.posts, posts, specs);
  }

  /** The value has the flags of buffer b that the extraction wrote. */
  ghost predicate FlagsAgree(e: Extraction, v: Value, specs: seq<seq<ColumnSpec>>, b: nat)
    requires b < |specs|
  {
    b < |e.grids| && (FlagsThere(v, specs, b) <==> FlagsWritten(e.grids[b], |e.u|))
  }

  lemma PostIsSound(cfg: Config, specs: seq<seq<ColumnSpec>>, log: seq<Extraction>, full: seq<ColumnSpec>,
        posts: seq<Value>, hist: seq<seq<Row>>, p: nat, b: nat)
    requires cfg.types == TypesOfAll(specs) && p < |log| && b < |specs| && PostSound(log[p], cfg.types, hist)
    requires posts == PublishedAll(full, log) && Fits(full, posts[p])
    ensures ShowsOnly(posts[p], specs, b, hist[b]) && FlagsAgree(log[p], posts[p], specs, b)
  {
    PublishedShowsOnly(full, log[p], specs, hist, b, posts[p]);
  }

  lemma FlagsCarryOver(log: seq<Extraction>, posts: seq<Value>, specs: seq<seq<ColumnSpec>>)
    requires |log| == |posts| && forall p :: 0 <= p < |log| ==> |log[p].grids| == |specs|
    requires forall p, b :: 0 <= p < |posts| && 0 <= b < |specs| ==> FlagsAgree(log[p], posts[p], specs, b)
    ensures AllFlagsThere(posts, specs) <==> AllFlagged(log)
  {
    if AllFlagsThere(posts, specs) {
      forall p | 0 <= p < |log| ensures PostFlagged(log[p]) {
        forall b | 0 <= b < |specs| ensures FlagsWritten(log[p].grids[b], |log[p].u|) {
          assert FlagsThere(posts[p], specs, b) && FlagsAgree(log[p], posts[p], specs, b);
        }
      }
    }
    if AllFlagged(log) {
      forall p, b | 0 <= p < |posts| && 0 <= b < |specs| ensures FlagsThere(posts[p], specs, b) {
        assert PostFlagged(log[p]) && FlagsAgree(log[p], posts[p], specs, b);
      }
    }
  }

  lemma PushedIs(cfg: Config, s: Sys, b: nat, value: Value, t: Sys)
    requires |cfg.types| == |s.queues| && PushedAt(t.queues, s.queues, b, value) && t == s.(queues := t.queues)
    ensures t == Step(cfg, s, Event.Push(b, RowsOf(value.columns.value)))
  {
  }

  lemma TakenIs(cfg: Config, s: Sys, w: Window, now: int, t: Sys)
    requires |cfg.types| == |s.queues| && s.running
    requires t == s.(queues := AfterExtract(s.queues, cfg.types, w.start, w.end), pending := None, lastUpdate := now,
                     posts := s.posts + [Extracted(s.queues, cfg.types, w.start, w.end)])
    ensures t == Taken(cfg, s, w, now)
  {
  }

  function Decided(s: Sys, d: Decision): Sys {
    match d
    case TimedOut => s.(running := false)
    case Sleep => s
    case Go(w) => s.(pending := Some(w))
  }

  lemma LookResult(cfg: Config, s: Sys, now: int, d: Decision)
    requires |cfg.types| == |s.queues| && s.running && s.pending.None? && d == LookAt(cfg, s.queues, s.lastUpdate, now)
    ensures Step(cfg, s, Event.Look(now)) == Decided(s, d)
  {
  }

  lemma TakeOutcome(cfg: Config, s: Sys, now: int, w: Window)
    requires |cfg.types| == |s.queues| && s.running && s.pending == Some(w)
    ensures Step(cfg, s, Event.Take(now)) ==
            if Gt(w.start, w.end) then s.(pending := None, running := false) else Taken(cfg, s, w, now)
  {
  }

  /** The end of Reactor::prepare: drop the PVs that never answered and check that some are left. */
  method FinishPrepare(table: TimeAlignedTable, running: bool) returns (ready: bool)
    requires table.Valid()
    modifies table
    ensures table.Valid()
    ensures ready ==> table.typ.Some? && table.buffers != []
    ensures ready <==> running && exists b :: 0 <= b < |old(table.buffers)| && old(table.buffers[b].typ).Some?
  {
    if !running {
      return false;
    }
    ghost var flags := InitFlags(table.buffers);
    KeptNone(flags);
    var remaining := table.ForceInitialize();
    return remaining != 0;
  }

  lemma {:induction false} KeptNone(flags: seq<bool>)
    ensures KeptIndices(flags) == [] <==> forall b :: 0 <= b < |flags| ==> !flags[b]
  {
    if flags != [] {
      KeptNone(flags[..|flags| - 1]);
      assert forall b :: 0 <= b < |flags| - 1 ==> flags[..|flags| - 1][b] == flags[b];
    }
  }
}
