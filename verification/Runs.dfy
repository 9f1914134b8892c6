/**
 * The merger as a step system: the listener pushes updates, the reactor looks
 * at the bounds and later takes the window it chose; each step is atomic.
 */
module Runs {
  import opened Results
  import opened TimeStamps
  import opened TimeTables
  import opened RowQueues
  import opened TableBuffers
  import opened TimeBoundsOf
  import opened Alignment

  /** Column types of the buffers, and the reactor's period and timeout in nanoseconds. */
  datatype Config = Config(types: seq<seq<TypeCode>>, period: nat, timeout: nat)

  datatype Window = Window(start: TimeStamp, end: TimeStamp)

  datatype Sys = Sys(
    queues: seq<Queue>,
    pending: Option<Window>,     // the window chosen but not yet extracted
    lastUpdate: int,
    running: bool,
    posts: seq<Extraction>)      // everything published so far

  datatype Event = Push(b: nat, rows: seq<Row>) | Look(now: int) | Take(now: int)

  datatype Decision = TimedOut | Sleep | Go(window: Window)

  /** One pass of the reactor loop up to the call of extract. */
  function LookAt(cfg: Config, qs: seq<Queue>, lastUpdate: int, now: int): Decision {
    if cfg.timeout > 0 && now - lastUpdate > cfg.timeout then TimedOut
    else
      var t := BoundsOf(Spans(qs));
      if !t.valid then Sleep
      else if Ticks(t.earliestEnd) - Ticks(t.earliestStart) < cfg.period
           && Ticks(t.latestEnd) - Ticks(t.earliestStart) < cfg.timeout then Sleep
      else Go(Window(t.earliestStart, AddTicks(t.earliestStart, cfg.period)))
  }

  function Step(cfg: Config, s: Sys, e: Event): (r: Sys)
    requires |cfg.types| == |s.queues|
    ensures |r.queues| == |s.queues|
  {
    match e
    case Push(b, rows) =>
      if b < |s.queues| then s.(queues := s.queues[b := s.queues[b].Pushed(rows)]) else s
    case Look(now) =>
      if !s.running || s.pending.Some? then s
      else (match LookAt(cfg, s.queues, s.lastUpdate, now)
        case TimedOut => s.(running := false)
        case Sleep => s
        case Go(w) => s.(pending := Some(w)))
    case Take(now) =>
      if !s.running || s.pending.None? then s
      else
        var w := s.pending.value;
        if Gt(w.start, w.end) then s.(pending := None, running := false)
        else Taken(cfg, s, w, now)
  }

  /** The window is extracted and posted. */
  function Taken(cfg: Config, s: Sys, w: Window, now: int): Sys
    requires |cfg.types| == |s.queues|
  {
    Sys(AfterExtract(s.queues, cfg.types, w.start, w.end), None, now, true,
        s.posts + [Extracted(s.queues, cfg.types, w.start, w.end)])
  }

  function Run(cfg: Config, s: Sys, events: seq<Event>): (r: Sys)
    requires |cfg.types| == |s.queues|
    ensures |r.queues| == |s.queues|
    decreases |events|
  {
    if events == [] then s else Run(cfg, Step(cfg, s, events[0]), events[1..])
  }

  lemma {:induction false} RunAppend(cfg: Config, s: Sys, xs: seq<Event>, ys: seq<Event>)
    requires |cfg.types| == |s.queues|
    ensures Run(cfg, s, xs + ys) == Run(cfg, Run(cfg, s, xs), ys)
    decreases |xs|
  {
    if xs == [] {
      assert xs + ys == ys;
    } else {
      RunAppend(cfg, Step(cfg, s, xs[0]), xs[1..], ys);
      assert (xs + ys)[1..] == xs[1..] + ys;
    }
  }

  /** What is published stays published. */
  lemma {:induction false} PostsGrow(cfg: Config, s: Sys, events: seq<Event>)
    requires |cfg.types| == |s.queues|
    ensures s.posts <= Run(cfg, s, events).posts
    decreases |events|
  {
    if events != [] { PostsGrow(cfg, Step(cfg, s, events[0]), events[1..]); }
  }

  // ----- what the environment must keep to -----

  ghost predicate RowsInRange(rows: seq<Row>) {
    forall j :: 0 <= j < |rows| ==> InRange(rows[j].ts)
  }

  /**
   * An update is not empty, has the width of its buffer and continues it in
   * strictly ascending order; a window does not run over the end of the 32-bit
   * clock. Nothing is asked of when the listener gets its turn.
   */
  ghost predicate Admissible(cfg: Config, s: Sys, e: Event)
    requires |cfg.types| == |s.queues|
  {
    match e
    case Push(b, rows) => b < |s.queues| ==>
      && rows != [] && RowsInRange(rows) && Wide(rows, |cfg.types[b]|)
      && AscendingRows(s.queues[b].Live() + rows)
    case Look(now) =>
      var d := LookAt(cfg, s.queues, s.lastUpdate, now);
      d.Go? ==> NoWrap(d.window.start, cfg.period)
    case Take(now) => true
  }

  ghost predicate WellFormed(cfg: Config, s: Sys, events: seq<Event>)
    requires |cfg.types| == |s.queues|
    decreases |events|
  {
    events == [] || (Admissible(cfg, s, events[0]) && WellFormed(cfg, Step(cfg, s, events[0]), events[1..]))
  }

  // ----- what every well-formed run keeps -----

  ghost predicate QueueSound(q: Queue, types: seq<TypeCode>) { Fit(q, types) && RowsInRange(q.Live()) }

  /** Some buffer's first unconsumed row has the time of the start of the window. */
  ghost predicate StartsAtRow(qs: seq<Queue>, start: TimeStamp) {
    exists b :: 0 <= b < |qs| && qs[b].Live() != [] && Untagged(qs[b].Live()[0].ts) == start
  }

  ghost predicate WindowSound(qs: seq<Queue>, w: Window) {
    Lt(w.start, w.end) && w.end.utag == 0 && InRange(w.end) && StartsAtRow(qs, w.start)
  }

  /** Every buffer is in order, and a chosen window is not empty and begins at some buffer's first row. */
  ghost predicate Sound(cfg: Config, s: Sys) {
    && |cfg.types| == |s.queues| && cfg.period > 0
    && (forall b :: 0 <= b < |s.queues| ==> QueueSound(s.queues[b], cfg.types[b]))
    && (s.pending.Some? ==> WindowSound(s.queues, s.pending.value))
  }

  lemma SpansSane(cfg: Config, s: Sys)
    requires Sound(cfg, s)
    ensures forall b :: 0 <= b < |s.queues| ==> Sane(Spans(s.queues)[b])
  {
    forall b | 0 <= b < |s.queues| ensures Sane(Spans(s.queues)[b]) {
      assert QueueSound(s.queues[b], cfg.types[b]);
    }
  }

  /** A window the reactor chooses starts at the time of some first row, which no unconsumed row precedes. */
  lemma ChosenWindow(cfg: Config, s: Sys, now: int)
    requires Sound(cfg, s) && LookAt(cfg, s.queues, s.lastUpdate, now).Go?
    ensures var w := LookAt(cfg, s.queues, s.lastUpdate, now).window;
      && w.start.utag == 0 && InRange(w.start) && w.end == AddTicks(w.start, cfg.period)
      && (forall b :: 0 <= b < |s.queues| ==> AllFrom(s.queues[b].Live(), w.start))
      && StartsAtRow(s.queues, w.start)
  {
    var t := BoundsOf(Spans(s.queues));
    GoMeans(cfg, s.queues, s.lastUpdate, now, t);
    ChosenStart(cfg, s, t);
  }

  lemma GoMeans(cfg: Config, qs: seq<Queue>, lastUpdate: int, now: int, t: TimeBounds)
    requires t == BoundsOf(Spans(qs)) && LookAt(cfg, qs, lastUpdate, now).Go?
    ensures t.valid
    ensures LookAt(cfg, qs, lastUpdate, now) == Go(Window(t.earliestStart, AddTicks(t.earliestStart, cfg.period)))
  {
  }

  lemma ChosenStart(cfg: Config, s: Sys, t: TimeBounds)
    requires Sound(cfg, s) && t == BoundsOf(Spans(s.queues)) && t.valid
    ensures t.earliestStart.utag == 0 && InRange(t.earliestStart)
    ensures forall b :: 0 <= b < |s.queues| ==> AllFrom(s.queues[b].Live(), t.earliestStart)
    ensures StartsAtRow(s.queues, t.earliestStart)
  {
    SpansSane(cfg, s);
    var spans := Spans(s.queues);
    BoundsTight(spans, |spans|);
    EarliestBuffer(cfg, s, t);
    forall b | 0 <= b < |s.queues| ensures AllFrom(s.queues[b].Live(), t.earliestStart) {
      assert QueueSound(s.queues[b], cfg.types[b]);
      NothingBefore(spans, t, b, s.queues[b].Live());
    }
  }

  lemma NothingBefore(spans: seq<TimeSpan>, t: TimeBounds, b: nat, live: seq<Row>)
    requires Bounds(spans, |spans|, t) && b < |spans| && spans[b] == SpanOf(live) && AscendingRows(live)
    ensures AllFrom(live, t.earliestStart)
  {
    FirstRowBounds(live, t.earliestStart);
  }

  lemma EarliestBuffer(cfg: Config, s: Sys, t: TimeBounds)
    requires Sound(cfg, s) && t.valid && Tight(Spans(s.queues), |s.queues|, t)
    ensures t.earliestStart.utag == 0 && InRange(t.earliestStart) && StartsAtRow(s.queues, t.earliestStart)
  {
    var spans := Spans(s.queues);
    var i :| 0 <= i < |spans| && spans[i].valid && spans[i].start == t.earliestStart;
    assert QueueSound(s.queues[i], cfg.types[i]);
  }

  lemma FirstRowBounds(live: seq<Row>, start: TimeStamp)
    requires AscendingRows(live) && (live != [] ==> Le(start, Untagged(live[0].ts)))
    ensures AllFrom(live, start)
  {
  }

  lemma PushKeepsStart(qs: seq<Queue>, b: nat, rows: seq<Row>, start: TimeStamp)
    requires StartsAtRow(qs, start) && b < |qs| && qs[b].Ok() && rows != []
    ensures StartsAtRow(qs[b := qs[b].Pushed(rows)], start)
  {
    var i :| 0 <= i < |qs| && qs[i].Live() != [] && Untagged(qs[i].Live()[0].ts) == start;
    qs[b].PushedLive(rows);
    var after := qs[b := qs[b].Pushed(rows)];
    assert after[i].Live() != [] && after[i].Live()[0] == qs[i].Live()[0];
  }

  /** The window begins at a row that lies in it. */
  lemma RowAtStart(qs: seq<Queue>, w: Window) returns (b: nat)
    requires WindowSound(qs, w)
    ensures b < |qs| && qs[b].Live() != [] && Untagged(qs[b].Live()[0].ts) == w.start
    ensures InWindow(qs[b].Live()[0].ts, w.start, w.end)
  {
    b :| 0 <= b < |qs| && qs[b].Live() != [] && Untagged(qs[b].Live()[0].ts) == w.start;
  }

  /** So a chosen window always publishes some time. */
  lemma TakeHasTimes(cfg: Config, s: Sys) returns (b: nat)
    requires Sound(cfg, s) && s.pending.Some?
    ensures var w := s.pending.value;
      && b < |s.queues| && s.queues[b].Live() != [] && Untagged(s.queues[b].Live()[0].ts) == w.start
      && s.queues[b].Live()[0].ts in Union(s.queues, w.start, w.end)
      && |AfterExtract(s.queues, cfg.types, w.start, w.end)[b].Live()| < |s.queues[b].Live()|
  {
    var w := s.pending.value;
    b := RowAtStart(s.queues, w);
    assert QueueSound(s.queues[b], cfg.types[b]);
    ExtractProgress(s.queues, cfg.types, w.start, w.end, b);
  }

  lemma SoundIsFit(cfg: Config, s: Sys)
    requires Sound(cfg, s)
    ensures AllFit(s.queues, cfg.types)
  {
    forall b | 0 <= b < |s.queues| ensures Fit(s.queues[b], cfg.types[b]) {
      assert QueueSound(s.queues[b], cfg.types[b]);
    }
  }

  /** A take with a pending window always succeeds: its start never lies behind its end. */
  lemma TakeResult(cfg: Config, s: Sys, now: int)
    requires Sound(cfg, s) && s.running && s.pending.Some?
    ensures Step(cfg, s, Take(now)) == Taken(cfg, s, s.pending.value, now)
  {
  }

  /** A take leaves a suffix of every buffer's rows. */
  lemma TakeLeavesSuffix(cfg: Config, s: Sys, now: int, b: nat)
    requires Sound(cfg, s) && s.pending.Some? && b < |s.queues|
    ensures var l, l' := s.queues[b].Live(), Taken(cfg, s, s.pending.value, now).queues[b].Live();
            |l'| <= |l| && l' == l[|l| - |l'|..]
  {
    assert QueueSound(s.queues[b], cfg.types[b]);
    ExtractSuffix(s.queues, cfg.types, s.pending.value.start, s.pending.value.end, b);
  }

  lemma SuffixSound(q: Queue, q': Queue, types: seq<TypeCode>, c: nat)
    requires QueueSound(q, types) && c <= |q.Live()| && q'.Ok() && q'.Live() == q.Live()[c..]
    ensures QueueSound(q', types)
  {
  }

  lemma TakenIsSound(cfg: Config, s: Sys, now: int)
    requires Sound(cfg, s) && s.pending.Some?
    ensures Sound(cfg, Taken(cfg, s, s.pending.value, now))
  {
    var w := s.pending.value;
    var s' := Taken(cfg, s, w, now);
    forall b | 0 <= b < |s.queues| ensures QueueSound(s'.queues[b], cfg.types[b]) {
      assert QueueSound(s.queues[b], cfg.types[b]);
      ExtractSuffix(s.queues, cfg.types, w.start, w.end, b);
      SuffixSound(s.queues[b], s'.queues[b], cfg.types[b], |s.queues[b].Live()| - |s'.queues[b].Live()|);
    }
  }

  lemma PushedIsSound(q: Queue, types: seq<TypeCode>, rows: seq<Row>)
    requires QueueSound(q, types) && rows != [] && RowsInRange(rows) && Wide(rows, |types|)
    requires AscendingRows(q.Live() + rows)
    ensures QueueSound(q.Pushed(rows), types)
  {
    q.PushedLive(rows);
  }

  lemma PushKeepsSound(cfg: Config, s: Sys, e: Event)
    requires Sound(cfg, s) && Admissible(cfg, s, e) && e.Push?
    ensures Sound(cfg, Step(cfg, s, e))
  {
    if e.b < |s.queues| {
      assert QueueSound(s.queues[e.b], cfg.types[e.b]);
      PushedIsSound(s.queues[e.b], cfg.types[e.b], e.rows);
      if s.pending.Some? { PushKeepsStart(s.queues, e.b, e.rows, s.pending.value.start); }
    }
  }

  /** Every admissible step, at whatever moment, keeps the buffers in order and the chosen window sound. */
  lemma StepKeepsSound(cfg: Config, s: Sys, e: Event)
    requires Sound(cfg, s) && Admissible(cfg, s, e)
    ensures Sound(cfg, Step(cfg, s, e))
  {
    match e
    case Push(_, _) => PushKeepsSound(cfg, s, e);
    case Look(now) =>
      var s' := Step(cfg, s, e);
      if s.pending.None? && s'.pending.Some? {
        ChosenWindow(cfg, s, now);
        AddTicksExact(s'.pending.value.start, cfg.period);
      }
    case Take(now) =>
      if s.running && s.pending.Some? {
        TakeResult(cfg, s, now);
        TakenIsSound(cfg, s, now);
      }
  }

  /**
   * Under every interleaving of pushes and reactor steps the buffers stay in
   * order, and a chosen window stays one that begins at a waiting row and whose
   * extraction succeeds.
   */
  lemma {:induction false} RunKeepsSound(cfg: Config, s: Sys, events: seq<Event>)
    requires Sound(cfg, s) && WellFormed(cfg, s, events)
    ensures Sound(cfg, Run(cfg, s, events))
    decreases |events|
  {
    if events != [] {
      StepKeepsSound(cfg, s, events[0]);
      RunKeepsSound(cfg, Step(cfg, s, events[0]), events[1..]);
    }
  }

  /** The state after start-up: nothing buffered, nothing chosen, nothing posted. */
  function Initial(cfg: Config, now: int): Sys {
    Sys(seq(|cfg.types|, _ => Queue([], 0)), None, now, true, [])
  }

  lemma InitialIsSound(cfg: Config, now: int)
    requires cfg.period > 0
    ensures Sound(cfg, Initial(cfg, now))
  {
  }
}
