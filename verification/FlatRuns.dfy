/**
 * Exactly when the chunks of the buffers show in what a run publishes: the run
 * is compared with one on flat queues, which forget a row once it is consumed.
 */
module FlatRuns {
  import opened TimeTables
  import opened RowQueues
  import opened TimeBoundsOf
  import opened Alignment
  import opened Runs

  /** The same unconsumed rows everywhere, and the same history. */
  ghost predicate SameLive(s: Sys, s': Sys) {
    && |s.queues| == |s'.queues| && (forall b :: 0 <= b < |s.queues| ==> s.queues[b].Live() == s'.queues[b].Live())
    && s.pending == s'.pending && s.lastUpdate == s'.lastUpdate && s.running == s'.running && s.posts == s'.posts
  }

  /** The same state with every buffer's unconsumed rows in one chunk. */
  function Flattened(s: Sys): Sys { s.(queues := AllCanonical(s.queues)) }

  /** The run in which the buffers are flattened after every step. */
  function FlatRun(cfg: Config, s: Sys, events: seq<Event>): Sys
    requires |cfg.types| == |s.queues|
    decreases |events|
  {
    if events == [] then s else FlatRun(cfg, Flattened(Step(cfg, s, events[0])), events[1..])
  }

  ghost predicate IsFlat(s: Sys) { forall b :: 0 <= b < |s.queues| ==> s.queues[b] == Canonical(s.queues[b]) }

  /** A take finds every consumed row that is still held inside its window doubled by an unconsumed one. */
  ghost predicate SeesFlat(s: Sys, e: Event) {
    e.Take? && s.running && s.pending.Some? ==> StaleDoubled(s.queues, s.pending.value.start, s.pending.value.end)
  }

  ghost predicate AlwaysSeesFlat(cfg: Config, s: Sys, events: seq<Event>)
    requires |cfg.types| == |s.queues|
    decreases |events|
  {
    events == [] || (SeesFlat(s, events[0]) && AlwaysSeesFlat(cfg, Step(cfg, s, events[0]), events[1..]))
  }

  // ----- flattening -----

  lemma FlattenedIsFlat(s: Sys)
    ensures IsFlat(Flattened(s)) && SameLive(s, Flattened(s))
  {
    forall b | 0 <= b < |s.queues|
      ensures Canonical(Canonical(s.queues[b])) == Canonical(s.queues[b])
      ensures Canonical(s.queues[b]).Live() == s.queues[b].Live()
    {
      CanonicalKeepsLive(s.queues[b]);
    }
  }

  lemma FlattenedKeepsSound(cfg: Config, s: Sys, t: Sys)
    requires Sound(cfg, s) && t == Flattened(s)
    ensures Sound(cfg, t)
  {
    forall b | 0 <= b < |s.queues|
      ensures QueueSound(t.queues[b], cfg.types[b]) && t.queues[b].Live() == s.queues[b].Live()
    {
      assert QueueSound(s.queues[b], cfg.types[b]);
      CanonicalKeepsLive(s.queues[b]);
    }
    if s.pending.Some? {
      var b := RowAtStart(s.queues, s.pending.value);
      assert t.queues[b].Live() == s.queues[b].Live();
    }
  }

  lemma CanonicalHasNoStale(q: Queue)
    ensures Canonical(q).Stale() == []
  {
    assert Canonical(q).inner == 0;
  }

  lemma FlatQueuesAreCanonical(s: Sys, s': Sys)
    requires SameLive(s, s') && IsFlat(s')
    ensures s'.queues == AllCanonical(s.queues)
  {
  }

  lemma FlatSeesFlat(s: Sys, e: Event)
    requires IsFlat(s)
    ensures SeesFlat(s, e)
  {
    forall b | 0 <= b < |s.queues| ensures s.queues[b].Stale() == [] {
      CanonicalHasNoStale(s.queues[b]);
    }
  }

  // ----- posts are final -----

  lemma {:induction false} FlatPostsGrow(cfg: Config, s: Sys, events: seq<Event>)
    requires |cfg.types| == |s.queues|
    ensures s.posts <= FlatRun(cfg, s, events).posts
    decreases |events|
  {
    if events != [] { FlatPostsGrow(cfg, Flattened(Step(cfg, s, events[0])), events[1..]); }
  }

  lemma DifferentPrefix<T>(a: seq<T>, b: seq<T>, a': seq<T>, b': seq<T>)
    requires a <= a' && b <= b' && |a| == |b| && a != b
    ensures a' != b'
  {
  }

  // ----- one step -----

  lemma SpansAgree(s: Sys, s': Sys)
    requires SameLive(s, s')
    ensures Spans(s.queues) == Spans(s'.queues)
  {
  }

  lemma LookAgrees(cfg: Config, s: Sys, s': Sys, now: int, t: Sys, t': Sys)
    requires |cfg.types| == |s.queues| && SameLive(s, s') && Admissible(cfg, s, Look(now))
    requires t == Step(cfg, s, Look(now)) && t' == Step(cfg, s', Look(now))
    ensures t == s.(pending := t.pending, running := t.running) && t' == s'.(pending := t.pending, running := t.running)
    ensures Admissible(cfg, s', Look(now))
  {
    SpansAgree(s, s');
  }

  /** A step that sees flat queues in both runs keeps them together. */
  lemma StepTogether(cfg: Config, s: Sys, s': Sys, e: Event, t: Sys, t': Sys)
    requires Sound(cfg, s) && Sound(cfg, s') && SameLive(s, s')
    requires Admissible(cfg, s, e) && SeesFlat(s, e) && SeesFlat(s', e)
    requires t == Step(cfg, s, e) && t' == Step(cfg, s', e)
    ensures SameLive(t, t') && Admissible(cfg, s', e)
  {
    if e.Push? {
      if e.b < |s.queues| { PushTogether(cfg, s, s', e.b, e.rows, t, t'); }
    } else if e.Look? {
      LookAgrees(cfg, s, s', e.now, t, t');
    } else if s.running && s.pending.Some? {
      TakeResult(cfg, s, e.now);
      TakeResult(cfg, s', e.now);
      TakeTogether(cfg, s, s', e.now, t, t');
    }
  }

  lemma PushTogether(cfg: Config, s: Sys, s': Sys, b: nat, rows: seq<Row>, t: Sys, t': Sys)
    requires Sound(cfg, s) && Sound(cfg, s') && SameLive(s, s') && rows != [] && b < |s.queues|
    requires t == s.(queues := s.queues[b := s.queues[b].Pushed(rows)])
    requires t' == s'.(queues := s'.queues[b := s'.queues[b].Pushed(rows)])
    ensures SameLive(t, t')
  {
    assert QueueSound(s.queues[b], cfg.types[b]) && QueueSound(s'.queues[b], cfg.types[b]);
    s.queues[b].PushedLive(rows);
    s'.queues[b].PushedLive(rows);
  }

  lemma TakeTogether(cfg: Config, s: Sys, s': Sys, now: int, t: Sys, t': Sys)
    requires Sound(cfg, s) && Sound(cfg, s') && SameLive(s, s') && s.pending.Some?
    requires StaleDoubled(s.queues, s.pending.value.start, s.pending.value.end)
    requires StaleDoubled(s'.queues, s.pending.value.start, s.pending.value.end)
    requires t == Taken(cfg, s, s.pending.value, now) && t' == Taken(cfg, s', s'.pending.value, now)
    ensures SameLive(t, t')
  {
    SoundIsFit(cfg, s);
    SoundIsFit(cfg, s');
    ChunkingIrrelevant(s.queues, s'.queues, cfg.types, s.pending.value.start, s.pending.value.end);
  }

  /** A take that does not see flat queues publishes other times. */
  lemma TakeApart(cfg: Config, s: Sys, s': Sys, e: Event, t: Sys, t': Sys)
    requires Sound(cfg, s) && Sound(cfg, s') && SameLive(s, s') && IsFlat(s') && !SeesFlat(s, e)
    requires t == Step(cfg, s, e) && t' == Step(cfg, s', e)
    ensures |t.posts| == |t'.posts| && t.posts != t'.posts
  {
    TakeResult(cfg, s, e.now);
    TakeResult(cfg, s', e.now);
    UnionsApart(cfg, s, s');
    var w := s.pending.value;
    LastDiffers(s.posts, Extracted(s.queues, cfg.types, w.start, w.end),
      Extracted(s'.queues, cfg.types, w.start, w.end));
  }

  lemma UnionsApart(cfg: Config, s: Sys, s': Sys)
    requires Sound(cfg, s) && SameLive(s, s') && IsFlat(s') && s.pending.Some?
    requires !StaleDoubled(s.queues, s.pending.value.start, s.pending.value.end)
    ensures var w := s.pending.value; Union(s.queues, w.start, w.end) != Union(s'.queues, w.start, w.end)
  {
    SoundIsFit(cfg, s);
    FlatQueuesAreCanonical(s, s');
    UnionIgnoresChunksIff(s.queues, s.pending.value.start, s.pending.value.end);
  }

  lemma LastDiffers(posts: seq<Extraction>, e: Extraction, e': Extraction)
    requires e.u != e'.u
    ensures posts + [e] != posts + [e']
  {
    assert (posts + [e])[|posts|] != (posts + [e'])[|posts|];
  }

  // ----- runs -----

  lemma {:induction false} RunsTogetherIff(cfg: Config, s: Sys, s': Sys, events: seq<Event>)
    requires Sound(cfg, s) && Sound(cfg, s') && SameLive(s, s') && IsFlat(s') && WellFormed(cfg, s, events)
    ensures (Run(cfg, s, events).posts == FlatRun(cfg, s', events).posts) == AlwaysSeesFlat(cfg, s, events)
    ensures AlwaysSeesFlat(cfg, s, events) ==> SameLive(Run(cfg, s, events), FlatRun(cfg, s', events))
    decreases |events|
  {
    if events != [] {
      var e, later := events[0], events[1..];
      var t, t' := Step(cfg, s, e), Step(cfg, s', e);
      if SeesFlat(s, e) {
        FlatSeesFlat(s', e);
        StepTogether(cfg, s, s', e, t, t');
        StepKeepsSound(cfg, s, e);
        StepKeepsSound(cfg, s', e);
        FlattenedIsFlat(t');
        FlattenedKeepsSound(cfg, t', Flattened(t'));
        RunsTogetherIff(cfg, t, Flattened(t'), later);
      } else {
        TakeApart(cfg, s, s', e, t, t');
        PostsGrow(cfg, t, later);
        FlatPostsGrow(cfg, Flattened(t'), later);
        DifferentPrefix(t.posts, t'.posts, Run(cfg, t, later).posts, FlatRun(cfg, Flattened(t'), later).posts);
      }
    }
  }

  /**
   * A run publishes what it would publish with flat queues if and only if every
   * take finds each consumed row still held inside its window doubled by an
   * unconsumed row; so then, and only then, chunks do not show. This holds
   * under every interleaving.
   */
  lemma {:induction false} ChunksInvisibleIff(cfg: Config, s: Sys, events: seq<Event>)
    requires Sound(cfg, s) && WellFormed(cfg, s, events)
    ensures Run(cfg, s, events).posts == FlatRun(cfg, Flattened(s), events).posts <==> AlwaysSeesFlat(cfg, s, events)
  {
    FlattenedIsFlat(s);
    FlattenedKeepsSound(cfg, s, Flattened(s));
    RunsTogetherIff(cfg, s, Flattened(s), events);
  }

  /** Two ways to hold the same rows go on alike under every schedule in which both always see flat queues. */
  lemma {:induction false} ChunkingsAgree(cfg: Config, s: Sys, s': Sys, events: seq<Event>)
    requires Sound(cfg, s) && Sound(cfg, s') && SameLive(s, s') && WellFormed(cfg, s, events)
    requires AlwaysSeesFlat(cfg, s, events) && AlwaysSeesFlat(cfg, s', events)
    ensures SameLive(Run(cfg, s, events), Run(cfg, s', events))
    decreases |events|
  {
    if events != [] {
      var e, t, t' := events[0], Step(cfg, s, events[0]), Step(cfg, s', events[0]);
      StepTogether(cfg, s, s', e, t, t');
      StepKeepsSound(cfg, s, e);
      StepKeepsSound(cfg, s', e);
      ChunkingsAgree(cfg, t, t', events[1..]);
    }
  }
}
