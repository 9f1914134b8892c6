/**
 * The window frontier over whole runs: when everything that stays queued lies
 * at or after the end of the last window, and published times only increase.
 */
module Frontiers {
  import opened Results
  import opened TimeStamps
  import opened TimeTables
  import opened RowQueues
  import opened Merging
  import opened MergeTrace
  import opened Alignment
  import opened Runs

  // ----- what the senders must keep to -----

  /** The time below which everything has been published: the end of the window extracted last. */
  function NextFloor(s: Sys, floor: TimeStamp, e: Event): TimeStamp {
    if e.Take? && s.running && s.pending.Some? then s.pending.value.end else floor
  }

  /** An update brings nothing older than the floor. */
  ghost predicate NothingOld(s: Sys, floor: TimeStamp, e: Event) {
    e.Push? && e.b < |s.queues| ==> AllFrom(e.rows, floor)
  }

  ghost predicate Orderly(cfg: Config, s: Sys, floor: TimeStamp, events: seq<Event>)
    requires |cfg.types| == |s.queues|
    decreases |events|
  {
    events == [] ||
    (Admissible(cfg, s, events[0]) && NothingOld(s, floor, events[0]) &&
     Orderly(cfg, Step(cfg, s, events[0]), NextFloor(s, floor, events[0]), events[1..]))
  }

  function FloorAfter(cfg: Config, s: Sys, floor: TimeStamp, events: seq<Event>): TimeStamp
    requires |cfg.types| == |s.queues|
    decreases |events|
  {
    if events == [] then floor
    else FloorAfter(cfg, Step(cfg, s, events[0]), NextFloor(s, floor, events[0]), events[1..])
  }

  lemma {:induction false} OrderlyIsWellFormed(cfg: Config, s: Sys, floor: TimeStamp, events: seq<Event>)
    requires |cfg.types| == |s.queues| && Orderly(cfg, s, floor, events)
    ensures WellFormed(cfg, s, events)
    decreases |events|
  {
    if events != [] {
      OrderlyIsWellFormed(cfg, Step(cfg, s, events[0]), NextFloor(s, floor, events[0]), events[1..]);
    }
  }

  // ----- what can go wrong between choosing a window and taking it -----

  /** A take finds output rows left whenever the merge of a buffer sees a row before the end of the window. */
  ghost predicate Kept(s: Sys, e: Event) {
    e.Take? && s.running && s.pending.Some? ==>
      var w := s.pending.value;
      forall b :: 0 <= b < |s.queues| ==> SeenInTime(Union(s.queues, w.start, w.end), w.end, s.queues[b].Live())
  }

  ghost predicate AlwaysKept(cfg: Config, s: Sys, events: seq<Event>)
    requires |cfg.types| == |s.queues|
    decreases |events|
  {
    events == [] || (Kept(s, events[0]) && AlwaysKept(cfg, Step(cfg, s, events[0]), events[1..]))
  }

  /** A take finds no row that is older than the start of its window. */
  ghost predicate NoneEarly(s: Sys, e: Event) {
    e.Take? && s.running && s.pending.Some? ==>
      forall b :: 0 <= b < |s.queues| ==> AllFrom(s.queues[b].Live(), s.pending.value.start)
  }

  ghost predicate NeverEarly(cfg: Config, s: Sys, events: seq<Event>)
    requires |cfg.types| == |s.queues|
    decreases |events|
  {
    events == [] || (NoneEarly(s, events[0]) && NeverEarly(cfg, Step(cfg, s, events[0]), events[1..]))
  }

  lemma NoneEarlyIsReady(cfg: Config, s: Sys, e: Event)
    requires Sound(cfg, s) && NoneEarly(s, e) && e.Take? && s.running && s.pending.Some?
    ensures AllReady(s.queues, cfg.types, s.pending.value.start)
  {
    forall b | 0 <= b < |s.queues| ensures Ready(s.queues[b], cfg.types[b], s.pending.value.start) {
      assert QueueSound(s.queues[b], cfg.types[b]);
    }
  }

  /** Without rows before the window every take keeps the frontier. */
  lemma NoneEarlyIsKept(cfg: Config, s: Sys, e: Event)
    requires Sound(cfg, s) && NoneEarly(s, e)
    ensures Kept(s, e)
  {
    if e.Take? && s.running && s.pending.Some? {
      var w := s.pending.value;
      NoneEarlyIsReady(cfg, s, e);
      forall b | 0 <= b < |s.queues|
        ensures SeenInTime(Union(s.queues, w.start, w.end), w.end, s.queues[b].Live())
      {
        ExtractFrontier(s.queues, cfg.types, w.start, w.end, b);
        ExtractKeepsIff(s.queues, cfg.types, w.start, w.end, b);
      }
    }
  }

  lemma {:induction false} NeverEarlyIsKept(cfg: Config, s: Sys, events: seq<Event>)
    requires Sound(cfg, s) && WellFormed(cfg, s, events) && NeverEarly(cfg, s, events)
    ensures AlwaysKept(cfg, s, events)
    decreases |events|
  {
    if events != [] {
      NoneEarlyIsKept(cfg, s, events[0]);
      StepKeepsSound(cfg, s, events[0]);
      NeverEarlyIsKept(cfg, Step(cfg, s, events[0]), events[1..]);
    }
  }

  // ----- the frontier -----

  ghost predicate QueueInv(q: Queue, types: seq<TypeCode>, floor: TimeStamp) {
    && QueueSound(q, types) && AllFrom(q.Live(), floor)
    && forall x :: x in q.Stale() ==> Le(x.ts, floor)
  }

  ghost predicate TimesIncrease(posts: seq<Extraction>) {
    && (forall p :: 0 <= p < |posts| ==> Ascending(posts[p].u))
    && (forall p, q, i, j :: 0 <= p < q < |posts| && 0 <= i < |posts[p].u| && 0 <= j < |posts[q].u| ==>
          Lt(posts[p].u[i], posts[q].u[j]))
  }

  ghost predicate PostsBelow(posts: seq<Extraction>, floor: TimeStamp) {
    forall p, i :: 0 <= p < |posts| && 0 <= i < |posts[p].u| ==> Lt(posts[p].u[i], floor)
  }

  /** Queued rows are at or after the floor, published times ascend below it, a chosen window begins at or after it. */
  ghost predicate Inv(cfg: Config, s: Sys, floor: TimeStamp) {
    && Sound(cfg, s) && floor.utag == 0 && InRange(floor)
    && (forall b :: 0 <= b < |s.queues| ==> QueueInv(s.queues[b], cfg.types[b], floor))
    && (s.pending.Some? ==> Le(floor, s.pending.value.start))
    && TimesIncrease(s.posts) && PostsBelow(s.posts, floor)
  }

  lemma StartFromFloor(cfg: Config, s: Sys, floor: TimeStamp, start: TimeStamp)
    requires Inv(cfg, s, floor) && StartsAtRow(s.queues, start)
    ensures Le(floor, start)
  {
    var b :| 0 <= b < |s.queues| && s.queues[b].Live() != [] && Untagged(s.queues[b].Live()[0].ts) == start;
    assert QueueInv(s.queues[b], cfg.types[b], floor);
    assert Ge(s.queues[b].Live()[0].ts, floor);
  }

  lemma PushStep(cfg: Config, s: Sys, floor: TimeStamp, e: Event)
    requires Inv(cfg, s, floor) && Admissible(cfg, s, e) && NothingOld(s, floor, e) && e.Push?
    ensures Inv(cfg, Step(cfg, s, e), floor)
  {
    StepKeepsSound(cfg, s, e);
    if e.b < |s.queues| {
      assert QueueInv(s.queues[e.b], cfg.types[e.b], floor);
      s.queues[e.b].PushedLive(e.rows);
    }
  }

  lemma LookStep(cfg: Config, s: Sys, floor: TimeStamp, e: Event)
    requires Inv(cfg, s, floor) && Admissible(cfg, s, e) && e.Look?
    ensures Inv(cfg, Step(cfg, s, e), floor)
  {
    StepKeepsSound(cfg, s, e);
    if s.pending.None? && Step(cfg, s, e).pending.Some? {
      ChosenWindow(cfg, s, e.now);
      StartFromFloor(cfg, s, floor, Step(cfg, s, e).pending.value.start);
    }
  }

  lemma PostAdded(posts: seq<Extraction>, e: Extraction, floor: TimeStamp, start: TimeStamp, end: TimeStamp)
    requires TimesIncrease(posts) && PostsBelow(posts, floor) && Ascending(e.u) && Le(floor, start) && Lt(start, end)
    requires forall i :: 0 <= i < |e.u| ==> InWindow(e.u[i], start, end)
    ensures TimesIncrease(posts + [e]) && PostsBelow(posts + [e], end)
  {
  }

  /** A take from a state with the frontier always continues the published times. */
  lemma TakenTimes(cfg: Config, s: Sys, floor: TimeStamp, now: int, posts: seq<Extraction>)
    requires Inv(cfg, s, floor) && s.pending.Some? && posts == Taken(cfg, s, s.pending.value, now).posts
    ensures TimesIncrease(posts) && PostsBelow(posts, s.pending.value.end)
  {
    var w := s.pending.value;
    UnionIsHeldWindow(s.queues, w.start, w.end);
    UnionBelowEnd(s.queues, w.start, w.end);
    PostAdded(s.posts, Extracted(s.queues, cfg.types, w.start, w.end), floor, w.start, w.end);
  }

  lemma StaleBelowEnd(q: Queue, q': Queue, types: seq<TypeCode>, floor: TimeStamp, end: TimeStamp, c: nat)
    requires QueueInv(q, types, floor) && Le(floor, end) && c <= |q.Live()|
    requires forall j :: 0 <= j < c ==> Le(q.Live()[j].ts, end)
    requires forall x :: x in q'.Stale() ==> x in q.Stale() || x in q.Live()[..c]
    ensures forall x :: x in q'.Stale() ==> Le(x.ts, end)
  {
  }

  lemma TakenQueueIff(cfg: Config, s: Sys, floor: TimeStamp, b: nat, u: seq<TimeStamp>, end: TimeStamp, q': Queue)
    requires Inv(cfg, s, floor) && s.pending.Some? && b < |s.queues| && end == s.pending.value.end
    requires u == Union(s.queues, s.pending.value.start, end)
    requires q' == AfterExtract(s.queues, cfg.types, s.pending.value.start, end)[b]
    ensures QueueInv(q', cfg.types[b], end) <==> SeenInTime(u, end, s.queues[b].Live())
  {
    var q, start := s.queues[b], s.pending.value.start;
    var c := MergeBuffer(u, end, cfg.types[b], q.Live()).1;
    assert QueueInv(q, cfg.types[b], floor);
    ExtractSuffix(s.queues, cfg.types, start, end, b);
    ExtractKeepsIff(s.queues, cfg.types, start, end, b);
    SuffixSound(q, q', cfg.types[b], c);
    StaleBelowEnd(q, q', cfg.types[b], floor, end, c);
  }

  /** Exactly the takes that find output rows left for every row of the window hand the frontier on. */
  lemma TakenInvIff(cfg: Config, s: Sys, floor: TimeStamp, now: int)
    requires Inv(cfg, s, floor) && s.running && s.pending.Some?
    ensures Inv(cfg, Taken(cfg, s, s.pending.value, now), s.pending.value.end) <==> Kept(s, Take(now))
  {
    var w := s.pending.value;
    var s' := Taken(cfg, s, w, now);
    TakenIsSound(cfg, s, now);
    TakenTimes(cfg, s, floor, now, s'.posts);
    forall b | 0 <= b < |s.queues|
      ensures QueueInv(s'.queues[b], cfg.types[b], w.end) <==>
              SeenInTime(Union(s.queues, w.start, w.end), w.end, s.queues[b].Live())
    {
      TakenQueueIff(cfg, s, floor, b, Union(s.queues, w.start, w.end), w.end, s'.queues[b]);
    }
  }

  /** Every orderly step keeps the invariant, a take if and only if it keeps nothing before the end of its window. */
  lemma StepKeepsInv(cfg: Config, s: Sys, floor: TimeStamp, e: Event)
    requires Inv(cfg, s, floor) && Admissible(cfg, s, e) && NothingOld(s, floor, e)
    ensures Inv(cfg, Step(cfg, s, e), NextFloor(s, floor, e)) <==> Kept(s, e)
    ensures Le(floor, NextFloor(s, floor, e))
  {
    match e
    case Push(_, _) => PushStep(cfg, s, floor, e);
    case Look(_) => LookStep(cfg, s, floor, e);
    case Take(now) =>
      if s.running && s.pending.Some? {
        TakeResult(cfg, s, now);
        TakenInvIff(cfg, s, floor, now);
      }
  }

  /**
   * Window frontier over whole runs: as long as every take keeps nothing before
   * the end of its window, the floor only rises, no unconsumed row is below it,
   * and the published timestamps strictly increase across all posts.
   */
  lemma {:induction false} RunKeepsInv(cfg: Config, s: Sys, floor: TimeStamp, events: seq<Event>)
    requires Inv(cfg, s, floor) && Orderly(cfg, s, floor, events) && AlwaysKept(cfg, s, events)
    ensures Inv(cfg, Run(cfg, s, events), FloorAfter(cfg, s, floor, events))
    ensures Le(floor, FloorAfter(cfg, s, floor, events))
    decreases |events|
  {
    if events != [] {
      StepKeepsInv(cfg, s, floor, events[0]);
      RunKeepsInv(cfg, Step(cfg, s, events[0]), NextFloor(s, floor, events[0]), events[1..]);
    }
  }

  // ----- exactly when published times increase -----

  /** A take that keeps a row before the end of its window is the last one to publish. */
  ghost predicate KeptUntilLast(cfg: Config, s: Sys, events: seq<Event>)
    requires |cfg.types| == |s.queues|
    decreases |events|
  {
    events == [] ||
    var t := Step(cfg, s, events[0]);
    && (Kept(s, events[0]) || |Run(cfg, t, events[1..]).posts| == |t.posts|)
    && KeptUntilLast(cfg, t, events[1..])
  }

  /** Each row before the end of the window is older than the window, or its time has been published. */
  ghost predicate OldOrShown(live: seq<Row>, w: Window, u: seq<TimeStamp>) {
    forall j :: 0 <= j < |live| && Lt(live[j].ts, w.end) ==> Lt(live[j].ts, w.start) || live[j].ts in u
  }

  ghost predicate AllOldOrShown(qs: seq<Queue>, w: Window, u: seq<TimeStamp>) {
    forall b :: 0 <= b < |qs| ==> OldOrShown(qs[b].Live(), w, u)
  }

  ghost predicate HasBefore(qs: seq<Queue>, end: TimeStamp) {
    exists b :: 0 <= b < |qs| && !AllFrom(qs[b].Live(), end)
  }

  /** The last post has the times u, which lie in the window. */
  ghost predicate LastPosted(posts: seq<Extraction>, w: Window, u: seq<TimeStamp>) {
    && posts != [] && u == posts[|posts| - 1].u && u != []
    && (forall i :: 0 <= i < |u| ==> InWindow(u[i], w.start, w.end))
  }

  /** Behind a take of the window w that kept a row before its end. */
  ghost predicate Lagging(cfg: Config, s: Sys, w: Window, u: seq<TimeStamp>) {
    && Sound(cfg, s) && w.end.utag == 0 && LastPosted(s.posts, w, u)
    && HasBefore(s.queues, w.end) && AllOldOrShown(s.queues, w, u)
    && (s.pending.Some? ==> Lt(s.pending.value.start, w.end))
  }

  lemma SuffixOldOrShown(live: seq<Row>, c: nat, w: Window, u: seq<TimeStamp>)
    requires c <= |live| && FillsWindow(u, w.start, w.end, live)
    ensures OldOrShown(live[c..], w, u)
  {
  }

  lemma BrokenIsLagging(cfg: Config, s: Sys, now: int, w: Window, t: Sys, u: seq<TimeStamp>)
    requires Sound(cfg, s) && s.running && s.pending == Some(w) && !Kept(s, Take(now)) && t == Taken(cfg, s, w, now)
    requires u == Union(s.queues, w.start, w.end)
    ensures Lagging(cfg, t, w, u)
  {
    TakenIsSound(cfg, s, now);
    var _ := TakeHasTimes(cfg, s);
    UnionBelowEnd(s.queues, w.start, w.end);
    forall b | 0 <= b < |s.queues| ensures OldOrShown(t.queues[b].Live(), w, u) {
      assert QueueSound(s.queues[b], cfg.types[b]);
      ExtractSuffix(s.queues, cfg.types, w.start, w.end, b);
      UnionFillsWindow(s.queues, w.start, w.end, b);
      SuffixOldOrShown(s.queues[b].Live(), |s.queues[b].Live()| - |t.queues[b].Live()|, w, u);
    }
    var b :| 0 <= b < |s.queues| && !SeenInTime(u, w.end, s.queues[b].Live());
    assert QueueSound(s.queues[b], cfg.types[b]);
    ExtractKeepsIff(s.queues, cfg.types, w.start, w.end, b);
  }

  lemma LaggingPush(cfg: Config, s: Sys, w: Window, u: seq<TimeStamp>, e: Event, t: Sys)
    requires Lagging(cfg, s, w, u) && Admissible(cfg, s, e) && NothingOld(s, w.end, e) && e.Push?
    requires t == Step(cfg, s, e)
    ensures Lagging(cfg, t, w, u)
  {
    StepKeepsSound(cfg, s, e);
    if e.b < |s.queues| {
      assert QueueSound(s.queues[e.b], cfg.types[e.b]);
      PushKeepsLagging(s.queues, e.b, e.rows, w, u, t.queues);
    }
  }

  lemma PushKeepsLagging(qs: seq<Queue>, b: nat, rows: seq<Row>, w: Window, u: seq<TimeStamp>, qs': seq<Queue>)
    requires HasBefore(qs, w.end) && AllOldOrShown(qs, w, u) && b < |qs| && qs[b].Ok() && rows != []
    requires AllFrom(rows, w.end) && qs' == qs[b := qs[b].Pushed(rows)]
    ensures HasBefore(qs', w.end) && AllOldOrShown(qs', w, u)
  {
    qs[b].PushedLive(rows);
    PushOldOrShown(qs[b].Live(), rows, w, u);
    var i :| 0 <= i < |qs| && !AllFrom(qs[i].Live(), w.end);
    var j :| 0 <= j < |qs[i].Live()| && !Ge(qs[i].Live()[j].ts, w.end);
    assert qs'[i].Live()[j] == qs[i].Live()[j];
  }

  lemma PushOldOrShown(live: seq<Row>, rows: seq<Row>, w: Window, u: seq<TimeStamp>)
    requires OldOrShown(live, w, u) && AllFrom(rows, w.end)
    ensures OldOrShown(live + rows, w, u)
  {
  }

  lemma LaggingLook(cfg: Config, s: Sys, w: Window, u: seq<TimeStamp>, e: Event, t: Sys)
    requires Lagging(cfg, s, w, u) && Admissible(cfg, s, e) && e.Look? && t == Step(cfg, s, e)
    ensures Lagging(cfg, t, w, u)
  {
    StepKeepsSound(cfg, s, e);
    if s.pending.None? && t.pending.Some? {
      ChosenWindow(cfg, s, e.now);
      StartsBefore(s.queues, t.pending.value.start, w.end);
    }
  }

  lemma StartsBefore(qs: seq<Queue>, start: TimeStamp, end: TimeStamp)
    requires HasBefore(qs, end) && forall b :: 0 <= b < |qs| ==> AllFrom(qs[b].Live(), start)
    ensures Lt(start, end)
  {
    var b :| 0 <= b < |qs| && !AllFrom(qs[b].Live(), end);
    var j :| 0 <= j < |qs[b].Live()| && !Ge(qs[b].Live()[j].ts, end);
    assert Ge(qs[b].Live()[j].ts, start);
  }

  /** The next take publishes a time again, or one that is older. */
  lemma LaggingTake(cfg: Config, s: Sys, w: Window, u: seq<TimeStamp>, now: int)
    requires Lagging(cfg, s, w, u) && s.pending.Some?
    ensures !TimesIncrease(Taken(cfg, s, s.pending.value, now).posts)
  {
    var b := TakeHasTimes(cfg, s);
    FirstOldOrShown(s.queues[b].Live(), s.pending.value.start, w, u);
    StepsBack(s.posts, Extracted(s.queues, cfg.types, s.pending.value.start, s.pending.value.end), w, u,
      s.queues[b].Live()[0].ts);
  }

  lemma FirstOldOrShown(live: seq<Row>, start: TimeStamp, w: Window, u: seq<TimeStamp>)
    requires OldOrShown(live, w, u) && live != [] && Untagged(live[0].ts) == start
    requires Lt(start, w.end) && w.end.utag == 0
    ensures Lt(live[0].ts, w.start) || live[0].ts in u
  {
    assert Lt(live[0].ts, w.end);
  }

  lemma StepsBack(posts: seq<Extraction>, e: Extraction, w: Window, u: seq<TimeStamp>, t: TimeStamp)
    requires LastPosted(posts, w, u) && t in e.u && (Lt(t, w.start) || t in u)
    ensures !TimesIncrease(posts + [e])
  {
    var p := |posts| - 1;
    var j :| 0 <= j < |e.u| && e.u[j] == t;
    var i :| 0 <= i < |u| && (t in u ==> u[i] == t);
    assert InWindow(u[i], w.start, w.end);
    assert (posts + [e])[p].u[i] == u[i] && (posts + [e])[p + 1].u[j] == t && !Lt(u[i], t);
  }

  lemma PrefixIncreases(posts: seq<Extraction>, more: seq<Extraction>)
    requires posts <= more && TimesIncrease(more)
    ensures TimesIncrease(posts)
  {
  }

  lemma {:induction false} LaggingRun(cfg: Config, s: Sys, w: Window, u: seq<TimeStamp>, events: seq<Event>)
    requires Lagging(cfg, s, w, u) && Orderly(cfg, s, w.end, events)
    ensures Run(cfg, s, events).posts == s.posts || !TimesIncrease(Run(cfg, s, events).posts)
    decreases |events|
  {
    if events != [] {
      var e, later := events[0], events[1..];
      var t := Step(cfg, s, e);
      if e.Take? && s.running && s.pending.Some? {
        TakeResult(cfg, s, e.now);
        LaggingTake(cfg, s, w, u, e.now);
        PostsGrow(cfg, t, later);
        if TimesIncrease(Run(cfg, t, later).posts) { PrefixIncreases(t.posts, Run(cfg, t, later).posts); }
      } else {
        LaggingIdle(cfg, s, w, u, e, t);
        LaggingRun(cfg, t, w, u, later);
      }
    }
  }

  lemma LaggingIdle(cfg: Config, s: Sys, w: Window, u: seq<TimeStamp>, e: Event, t: Sys)
    requires Lagging(cfg, s, w, u) && Admissible(cfg, s, e) && NothingOld(s, w.end, e)
    requires t == Step(cfg, s, e) && !(e.Take? && s.running && s.pending.Some?)
    ensures Lagging(cfg, t, w, u) && t.posts == s.posts
  {
    match e
    case Push(_, _) => LaggingPush(cfg, s, w, u, e, t);
    case Look(_) => LaggingLook(cfg, s, w, u, e, t);
    case Take(_) => assert t == s;
  }

  /** A run that publishes nothing has no take to keep anything. */
  lemma {:induction false} SilentIsKept(cfg: Config, s: Sys, events: seq<Event>)
    requires Sound(cfg, s) && WellFormed(cfg, s, events) && Run(cfg, s, events).posts == s.posts
    ensures KeptUntilLast(cfg, s, events)
    decreases |events|
  {
    if events != [] {
      var t := Step(cfg, s, events[0]);
      StepKeepsSound(cfg, s, events[0]);
      PostsGrow(cfg, t, events[1..]);
      SilentStep(cfg, s, events[0], t, Run(cfg, t, events[1..]).posts);
      SilentIsKept(cfg, t, events[1..]);
    }
  }

  lemma SilentStep(cfg: Config, s: Sys, e: Event, t: Sys, posts: seq<Extraction>)
    requires Sound(cfg, s) && t == Step(cfg, s, e) && t.posts <= posts == s.posts
    ensures t.posts == s.posts && Kept(s, e)
  {
    if e.Take? && s.running && s.pending.Some? {
      TakePublishes(cfg, s, e.now);
      assert false;
    }
  }

  lemma TakePublishes(cfg: Config, s: Sys, now: int)
    requires Sound(cfg, s) && s.running && s.pending.Some?
    ensures |Step(cfg, s, Take(now)).posts| == |s.posts| + 1
  {
    TakeResult(cfg, s, now);
  }

  /**
   * Published times strictly increase, within and across posts, if and only if
   * no take that keeps a row before the end of its window is followed by
   * another table.
   */
  lemma {:induction false} TimesIncreaseIff(cfg: Config, s: Sys, floor: TimeStamp, events: seq<Event>)
    requires Inv(cfg, s, floor) && Orderly(cfg, s, floor, events)
    ensures TimesIncrease(Run(cfg, s, events).posts) <==> KeptUntilLast(cfg, s, events)
    decreases |events|
  {
    if events != [] {
      var e, later := events[0], events[1..];
      var t := Step(cfg, s, e);
      StepKeepsInv(cfg, s, floor, e);
      if Kept(s, e) {
        TimesIncreaseIff(cfg, t, NextFloor(s, floor, e), later);
      } else {
        AfterBroken(cfg, s, floor, e, t, later);
      }
    }
  }

  lemma {:induction false} AfterBroken(cfg: Config, s: Sys, floor: TimeStamp, e: Event, t: Sys, later: seq<Event>)
    requires Inv(cfg, s, floor) && !Kept(s, e) && t == Step(cfg, s, e)
    requires |cfg.types| == |t.queues| && Orderly(cfg, t, NextFloor(s, floor, e), later)
    ensures if |Run(cfg, t, later).posts| == |t.posts|
            then TimesIncrease(Run(cfg, t, later).posts) && KeptUntilLast(cfg, t, later)
            else !TimesIncrease(Run(cfg, t, later).posts)
  {
    var w := s.pending.value;
    TakeResult(cfg, s, e.now);
    BrokenIsLagging(cfg, s, e.now, w, t, Union(s.queues, w.start, w.end));
    LaggingRun(cfg, t, w, Union(s.queues, w.start, w.end), later);
    PostsGrow(cfg, t, later);
    if |Run(cfg, t, later).posts| == |t.posts| {
      TakenTimes(cfg, s, floor, e.now, t.posts);
      OrderlyIsWellFormed(cfg, t, w.end, later);
      SilentIsKept(cfg, t, later);
    }
  }

  lemma InitialInv(cfg: Config, now: int)
    requires cfg.period > 0
    ensures Inv(cfg, Initial(cfg, now), MIN_TS)
  {
    InitialIsSound(cfg, now);
    forall b | 0 <= b < |cfg.types| ensures QueueInv(Queue([], 0), cfg.types[b], MIN_TS) {
    }
  }

  // ----- runs without the race -----

  /** Between choosing a window and taking it, no update brings a row from before its start. */
  ghost predicate Undisturbed(cfg: Config, s: Sys, events: seq<Event>)
    requires |cfg.types| == |s.queues|
    decreases |events|
  {
    events == [] ||
    (var e := events[0];
     && (e.Push? && e.b < |s.queues| && s.pending.Some? ==> AllFrom(e.rows, s.pending.value.start))
     && Undisturbed(cfg, Step(cfg, s, e), events[1..]))
  }

  ghost predicate WaitsFromStart(s: Sys) {
    s.pending.Some? ==> forall b :: 0 <= b < |s.queues| ==> AllFrom(s.queues[b].Live(), s.pending.value.start)
  }

  lemma UndisturbedStep(cfg: Config, s: Sys, e: Event)
    requires Sound(cfg, s) && WaitsFromStart(s) && Admissible(cfg, s, e)
    requires e.Push? && e.b < |s.queues| && s.pending.Some? ==> AllFrom(e.rows, s.pending.value.start)
    ensures WaitsFromStart(Step(cfg, s, e))
  {
    match e
    case Push(b, rows) =>
      if b < |s.queues| && s.pending.Some? {
        assert QueueSound(s.queues[b], cfg.types[b]);
        s.queues[b].PushedLive(rows);
      }
    case Look(now) =>
      if s.pending.None? && Step(cfg, s, e).pending.Some? { ChosenWindow(cfg, s, now); }
    case Take(_) =>
  }

  /** Then no take finds a row before its window. */
  lemma {:induction false} UndisturbedIsNeverEarly(cfg: Config, s: Sys, events: seq<Event>)
    requires Sound(cfg, s) && WaitsFromStart(s) && WellFormed(cfg, s, events) && Undisturbed(cfg, s, events)
    ensures NeverEarly(cfg, s, events)
    decreases |events|
  {
    if events != [] {
      UndisturbedStep(cfg, s, events[0]);
      StepKeepsSound(cfg, s, events[0]);
      UndisturbedIsNeverEarly(cfg, Step(cfg, s, events[0]), events[1..]);
    }
  }

  /** So without such an update the frontier holds and the published times increase from start-up on. */
  lemma {:induction false} UndisturbedRuns(cfg: Config, now: int, events: seq<Event>)
    requires cfg.period > 0 && Orderly(cfg, Initial(cfg, now), MIN_TS, events)
    requires Undisturbed(cfg, Initial(cfg, now), events)
    ensures AlwaysKept(cfg, Initial(cfg, now), events) && NeverEarly(cfg, Initial(cfg, now), events)
    ensures Inv(cfg, Run(cfg, Initial(cfg, now), events), FloorAfter(cfg, Initial(cfg, now), MIN_TS, events))
  {
    var s := Initial(cfg, now);
    InitialInv(cfg, now);
    OrderlyIsWellFormed(cfg, s, MIN_TS, events);
    UndisturbedIsNeverEarly(cfg, s, events);
    NeverEarlyIsKept(cfg, s, events);
    RunKeepsInv(cfg, s, MIN_TS, events);
  }

  /** From start-up, published timestamps strictly increase if a take that loses the frontier is the last to publish. */
  lemma {:induction false} PublishedTimesIncrease(cfg: Config, now: int, events: seq<Event>, p: nat, q: nat,
        i: nat, j: nat)
    requires cfg.period > 0 && Orderly(cfg, Initial(cfg, now), MIN_TS, events)
    requires KeptUntilLast(cfg, Initial(cfg, now), events)
    requires var posts := Run(cfg, Initial(cfg, now), events).posts;
      p <= q < |posts| && i < |posts[p].u| && j < |posts[q].u| && (p == q ==> i < j)
    ensures var posts := Run(cfg, Initial(cfg, now), events).posts;
      Lt(posts[p].u[i], posts[q].u[j])
  {
    InitialInv(cfg, now);
    TimesIncreaseIff(cfg, Initial(cfg, now), MIN_TS, events);
  }
}
