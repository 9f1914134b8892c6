/** The manager's file watcher: when a change of the PV list is noticed, deferred and checked. */
module Watchers {
  import opened Results

  /** One look: the file's modification time, the clock, and the lines a check would read. */
  datatype Look = Look(mtime: Option<int>, now: int, lines: Option<seq<string>>)

  datatype State = State(lastMod: int, lastUpdate: int, pending: bool, pvs: set<string>)

  /** The set of PVs in force after a check: an unreadable or empty file changes nothing. */
  function CheckedSet(pvs: set<string>, lines: Option<seq<string>>): set<string> {
    if lines.None? || lines.value == [] then pvs else set pv | pv in lines.value
  }

  /** The modification time differs from the one noted last. */
  predicate Changed(st: State, look: Look) { look.mtime.Some? && look.mtime.value != st.lastMod }

  /** Whether this look reads the file. */
  predicate Checks(st: State, look: Look, grace: int) {
    look.mtime.Some? &&
      if look.mtime.value == st.lastMod then st.pending && look.now > st.lastUpdate + grace
      else look.mtime.value >= st.lastMod + grace
  }

  function Next(st: State, look: Look, grace: int): State {
    if look.mtime.None? then st
    else if Checks(st, look, grace) then State(look.mtime.value, st.lastUpdate, false, CheckedSet(st.pvs, look.lines))
    else if Changed(st, look) then State(look.mtime.value, look.mtime.value, true, st.pvs)
    else st
  }

  class Watcher {
    const editGracePeriod: int
    var lastModTime: int
    var lastUpdateTime: int
    var editSessionFinished: bool   // a change waits for its check
    var previousPVSet: set<string>
    var restarts: nat               // how often the merger was started or told to restart

    function Abstract(): State
      reads this
    {
      State(lastModTime, lastUpdateTime, editSessionFinished, previousPVSet)
    }

    /** startWatching, up to its first look: a missing file counts as modified now. */
    constructor (requestedGrace: int, mtime: Option<int>, now: int)
      ensures 5 <= editGracePeriod <= 300 && (5 <= requestedGrace <= 300 ==> editGracePeriod == requestedGrace)
      ensures Abstract() == Start(if mtime.Some? then mtime.value else now) && restarts == 0
    {
      editGracePeriod := if requestedGrace < 5 then 5 else if requestedGrace > 300 then 300 else requestedGrace;
      lastModTime := if mtime.Some? then mtime.value else now;
      lastUpdateTime, editSessionFinished, previousPVSet, restarts := 0, true, {}, 0;
    }

    /** The merger is restarted exactly when the check brings another set of PVs. */
    method LookForChanges(look: Look)
      modifies this
      ensures Abstract() == Next(old(Abstract()), look, editGracePeriod)
      ensures restarts == old(restarts) + if previousPVSet != old(previousPVSet) then 1 else 0
    {
      if look.mtime.None? {
        return;
      }
      var newModTime := look.mtime.value;
      if newModTime == lastModTime {
        if editSessionFinished && look.now > lastUpdateTime + editGracePeriod {
          editSessionFinished := false;
          CheckForChangedPVs(look.lines);
        }
        return;
      }
      if newModTime >= lastModTime + editGracePeriod {
        editSessionFinished := false;
        CheckForChangedPVs(look.lines);
      } else {
        editSessionFinished := true;
        lastUpdateTime := newModTime;
      }
      lastModTime := newModTime;
    }

    method CheckForChangedPVs(lines: Option<seq<string>>)
      modifies this`previousPVSet, this`restarts
      ensures previousPVSet == CheckedSet(old(previousPVSet), lines)
      ensures lines.None? || lines.value == [] ==> previousPVSet == old(previousPVSet)
      ensures lines.Some? && lines.value != [] ==> forall pv :: pv in previousPVSet <==> pv in lines.value
      ensures restarts == old(restarts) + if previousPVSet != old(previousPVSet) then 1 else 0
    {
      if lines.None? {
        return;
      }
      if |lines.value| == 0 {
        return;
      }
      var newPVs := set pv | pv in lines.value;
      var changed := (newPVs - previousPVSet) + (previousPVSet - newPVs);
      assert changed == {} <==> newPVs == previousPVSet by {
        if changed == {} {
          assert forall pv :: pv in newPVs && pv !in previousPVSet ==> pv in changed;
          assert forall pv :: pv in previousPVSet && pv !in newPVs ==> pv in changed;
        }
      }
      previousPVSet := newPVs;
      if |changed| == 0 {
        return;
      }
      restarts := restarts + 1;
    }
  }

  // ----- runs -----

  function After(st: State, looks: seq<Look>, grace: int): State {
    if looks == [] then st else Next(After(st, looks[..|looks| - 1], grace), looks[|looks| - 1], grace)
  }

  /** Look k notices a change; look k reads the file. */
  predicate ChangedAt(st: State, looks: seq<Look>, grace: int, k: nat)
    requires k < |looks|
  {
    Changed(After(st, looks[..k], grace), looks[k])
  }

  predicate CheckedAt(st: State, looks: seq<Look>, grace: int, k: nat)
    requires k < |looks|
  {
    Checks(After(st, looks[..k], grace), looks[k], grace)
  }

  /** No look from k on reads the file. */
  ghost predicate UncheckedFrom(st: State, looks: seq<Look>, grace: int, k: nat) {
    forall j :: k <= j < |looks| ==> !CheckedAt(st, looks, grace, j)
  }

  /** Some change is not followed by a check: one noticed in the run, or the one pending at its start. */
  ghost predicate Owed(st: State, looks: seq<Look>, grace: int) {
    || (st.pending && UncheckedFrom(st, looks, grace, 0))
    || (exists k :: 0 <= k < |looks| && ChangedAt(st, looks, grace, k) && UncheckedFrom(st, looks, grace, k))
  }

  lemma SamePrefix(st: State, looks: seq<Look>, look: Look, grace: int, k: nat)
    requires k < |looks|
    ensures ChangedAt(st, looks + [look], grace, k) == ChangedAt(st, looks, grace, k)
    ensures CheckedAt(st, looks + [look], grace, k) == CheckedAt(st, looks, grace, k)
  {
    assert (looks + [look])[..k] == looks[..k];
  }

  lemma UncheckedSnoc(st: State, looks: seq<Look>, look: Look, grace: int, k: nat)
    requires k <= |looks|
    ensures UncheckedFrom(st, looks + [look], grace, k) ==
            (UncheckedFrom(st, looks, grace, k) && !CheckedAt(st, looks + [look], grace, |looks|))
  {
    forall j | 0 <= j < |looks| ensures CheckedAt(st, looks + [look], grace, j) == CheckedAt(st, looks, grace, j) {
      SamePrefix(st, looks, look, grace, j);
    }
  }

  lemma OwedSnoc(st: State, looks: seq<Look>, look: Look, grace: int)
    ensures var all, n := looks + [look], |looks|;
      Owed(st, all, grace) ==
      (!CheckedAt(st, all, grace, n) && (Owed(st, looks, grace) || ChangedAt(st, all, grace, n)))
  {
    var all, n := looks + [look], |looks|;
    forall k | 0 <= k <= n
      ensures UncheckedFrom(st, all, grace, k) == (UncheckedFrom(st, looks, grace, k) && !CheckedAt(st, all, grace, n))
      ensures k < n ==> ChangedAt(st, all, grace, k) == ChangedAt(st, looks, grace, k)
    {
      UncheckedSnoc(st, looks, look, grace, k);
      if k < n { SamePrefix(st, looks, look, grace, k); }
    }
    assert UncheckedFrom(st, looks, grace, n);
  }

  /** After every run, a check is pending exactly when one is owed: no noticed change is forgotten, and none is kept. */
  lemma {:induction false} PendingIffOwed(st: State, looks: seq<Look>, grace: int)
    ensures After(st, looks, grace).pending == Owed(st, looks, grace)
  {
    if looks == [] {
    } else {
      var n := |looks| - 1;
      PendingIffOwed(st, looks[..n], grace);
      assert looks == looks[..n] + [looks[n]];
      OwedSnoc(st, looks[..n], looks[n], grace);
    }
  }

  /** A quiet look past the grace period settles every change noticed before. */
  lemma {:induction false} QuietLookSettles(st: State, looks: seq<Look>, quiet: Look, grace: int, k: nat)
    requires quiet.mtime == Some(After(st, looks, grace).lastMod)
    requires quiet.now > After(st, looks, grace).lastUpdate + grace
    requires k < |looks| && ChangedAt(st, looks, grace, k)
    ensures !After(st, looks + [quiet], grace).pending
    ensures exists j :: k <= j < |looks| + 1 && CheckedAt(st, looks + [quiet], grace, j)
  {
    var all := looks + [quiet];
    assert all[..|looks|] == looks;
    PendingIffOwed(st, all, grace);
    SamePrefix(st, looks, quiet, grace, k);
    assert !UncheckedFrom(st, all, grace, k);
  }

  /** The number of checks, and of noticed changes. */
  function Checkings(st: State, looks: seq<Look>, grace: int): nat {
    if looks == [] then 0
    else Checkings(st, looks[..|looks| - 1], grace) + if CheckedAt(st, looks, grace, |looks| - 1) then 1 else 0
  }

  function Changes(st: State, looks: seq<Look>, grace: int): nat {
    if looks == [] then 0
    else Changes(st, looks[..|looks| - 1], grace) + if ChangedAt(st, looks, grace, |looks| - 1) then 1 else 0
  }

  /** Every check answers a change of its own: saves close to each other share one. */
  lemma {:induction false} ChecksAnswerChanges(st: State, looks: seq<Look>, grace: int)
    ensures Checkings(st, looks, grace) + (if After(st, looks, grace).pending then 1 else 0)
            <= Changes(st, looks, grace) + (if st.pending then 1 else 0)
  {
    if looks == [] {
    } else {
      ChecksAnswerChanges(st, looks[..|looks| - 1], grace);
    }
  }

  // ----- the PV set in force -----

  /** The file's lines are a function of its modification time, and every check of the run can read them. */
  ghost predicate Readable(st: State, looks: seq<Look>, grace: int, content: int -> seq<string>) {
    && (forall t :: content(t) != [])
    && (forall k :: 0 <= k < |looks| && CheckedAt(st, looks, grace, k) ==>
          looks[k].lines == Some(content(looks[k].mtime.value)))
  }

  /** As long as nothing is pending, the PVs in force are those of the file as last seen. */
  lemma {:induction false} UpToDateUnlessPending(st: State, looks: seq<Look>, grace: int, content: int -> seq<string>)
    requires st.pending && Readable(st, looks, grace, content)
    ensures var end := After(st, looks, grace); end.pending || end.pvs == set pv | pv in content(end.lastMod)
  {
    if looks != [] {
      var n := |looks| - 1;
      forall k | 0 <= k < n && CheckedAt(st, looks[..n], grace, k)
        ensures looks[..n][k].lines == Some(content(looks[k].mtime.value))
      {
        assert looks == looks[..n] + [looks[n]];
        SamePrefix(st, looks[..n], looks[n], grace, k);
      }
      UpToDateUnlessPending(st, looks[..n], grace, content);
      assert CheckedAt(st, looks, grace, n) ==> looks[n].lines == Some(content(looks[n].mtime.value));
    }
  }

  /** Look k reads the file and finds lines in it. */
  ghost predicate ReadsAt(st: State, looks: seq<Look>, grace: int, k: nat)
    requires k < |looks|
  {
    CheckedAt(st, looks, grace, k) && looks[k].lines.Some? && looks[k].lines.value != []
  }

  ghost predicate ReadsLast(st: State, looks: seq<Look>, grace: int, k: nat)
    requires k < |looks|
  {
    ReadsAt(st, looks, grace, k) && forall j :: k < j < |looks| ==> !ReadsAt(st, looks, grace, j)
  }

  /** These PVs are what the last look left that found lines in the file, or those of the start. */
  ghost predicate InForce(st: State, looks: seq<Look>, grace: int, pvs: set<string>) {
    && ((forall k :: 0 <= k < |looks| ==> !ReadsAt(st, looks, grace, k)) ==> pvs == st.pvs)
    && (forall k :: 0 <= k < |looks| && ReadsLast(st, looks, grace, k) ==>
          forall pv :: pv in pvs <==> pv in looks[k].lines.value)
  }

  /** The PVs in force are those of the last look that found lines; unreadable and empty files change nothing. */
  lemma {:induction false} PvsAreLastRead(st: State, looks: seq<Look>, grace: int)
    ensures InForce(st, looks, grace, After(st, looks, grace).pvs)
  {
    if looks != [] {
      var before, look := looks[..|looks| - 1], looks[|looks| - 1];
      assert looks == before + [look];
      PvsAreLastRead(st, before, grace);
      OneMoreRead(After(st, before, grace), look, grace);
      InForceSnoc(st, before, look, grace, After(st, before, grace).pvs, After(st, looks, grace).pvs);
    }
  }

  lemma {:induction false} InForceSnoc(st: State, before: seq<Look>, look: Look, grace: int, pvs: set<string>,
        pvs': set<string>)
    requires InForce(st, before, grace, pvs)
    requires if ReadsAt(st, before + [look], grace, |before|) then forall pv :: pv in pvs' <==> pv in look.lines.value
             else pvs' == pvs
    ensures InForce(st, before + [look], grace, pvs')
  {
    var looks := before + [look];
    forall k | 0 <= k < |before| && ReadsLast(st, looks, grace, k)
      ensures forall pv :: pv in pvs' <==> pv in looks[k].lines.value
    {
      LastBefore(st, before, look, grace, k);
    }
    if forall k :: 0 <= k < |looks| ==> !ReadsAt(st, looks, grace, k) {
      forall k | 0 <= k < |before| ensures !ReadsAt(st, before, grace, k) {
        SamePrefix(st, before, look, grace, k);
        assert !ReadsAt(st, looks, grace, k);
      }
    }
  }

  /** A look that reads last and is not the last one of the run reads last before it. */
  lemma {:induction false} LastBefore(st: State, before: seq<Look>, look: Look, grace: int, k: nat)
    requires k < |before| && ReadsLast(st, before + [look], grace, k)
    ensures ReadsLast(st, before, grace, k) && !ReadsAt(st, before + [look], grace, |before|)
  {
    SamePrefix(st, before, look, grace, k);
    forall j | k < j < |before| ensures !ReadsAt(st, before, grace, j) {
      SamePrefix(st, before, look, grace, j);
      assert !ReadsAt(st, before + [look], grace, j);
    }
  }

  lemma OneMoreRead(st: State, look: Look, grace: int)
    ensures var st' := Next(st, look, grace);
      if Checks(st, look, grace) && look.lines.Some? && look.lines.value != []
      then forall pv :: pv in st'.pvs <==> pv in look.lines.value
      else st'.pvs == st.pvs
  {
  }

  /**
   * A check that cannot read the file settles the change all the same: it is
   * not retried while the file stays as it is.
   */
  lemma {:induction false} UnreadableCheckForgets(st: State, failed: Look, looks: seq<Look>, grace: int)
    requires Checks(st, failed, grace) && failed.lines == None
    requires forall k :: 0 <= k < |looks| ==> looks[k].mtime == None || looks[k].mtime == failed.mtime
    ensures After(Next(st, failed, grace), looks, grace) == State(failed.mtime.value, st.lastUpdate, false, st.pvs)
  {
    if looks != [] { UnreadableCheckForgets(st, failed, looks[..|looks| - 1], grace); }
  }

  /** The first save after a quiet time is checked at once, even when the next save follows within the grace period. */
  lemma {:induction false} FirstSaveCheckedAtOnce(st: State, first: Look, second: Look, grace: int)
    requires grace > 0 && first.mtime.Some? && second.mtime.Some?
    requires st.lastMod + grace <= first.mtime.value < second.mtime.value < first.mtime.value + grace
    ensures CheckedAt(st, [first, second], grace, 0) && !CheckedAt(st, [first, second], grace, 1)
    ensures After(st, [first, second], grace).pending
    ensures first.now <= first.mtime.value + grace ==>
      FreshAfterGap(st.lastMod, first, grace) && !Quiet(first, grace)
  {
    var looks := [first, second];
    assert looks[..1] == [first] && [first][..0] == [];
    assert After(st, looks[..1], grace) == Next(st, first, grace);
  }

  // ----- when a check waits for a quiet time -----

  /** The look comes more than the grace period after the last save. */
  predicate Quiet(look: Look, grace: int) { look.mtime.Some? && look.now > look.mtime.value + grace }

  /** A save that follows the one seen last by at least the grace period, looked at within the grace period. */
  predicate FreshAfterGap(seen: int, look: Look, grace: int) {
    look.mtime.Some? && look.mtime.value >= seen + grace && look.now <= look.mtime.value + grace
  }

  /** A pending check waits for the change noted last; this is not so between start-up and the first change or check. */
  predicate WaitsForLast(st: State) { st.pending ==> st.lastUpdate == st.lastMod }

  /** From a state in which the wait is for the last change, a check comes early exactly on a fresh save after a gap. */
  lemma EarlyIff(st: State, look: Look, grace: int)
    requires grace > 0 && WaitsForLast(st)
    ensures Checks(st, look, grace) && !Quiet(look, grace) <==> FreshAfterGap(st.lastMod, look, grace)
    ensures WaitsForLast(Next(st, look, grace))
  {
  }

  /** The modification time seen last, which depends on the looks alone. */
  function Seen(first: int, looks: seq<Look>): int {
    if looks == [] then first
    else if looks[|looks| - 1].mtime.Some? then looks[|looks| - 1].mtime.value
    else Seen(first, looks[..|looks| - 1])
  }

  lemma {:induction false} LastModIsSeen(st: State, looks: seq<Look>, grace: int)
    ensures After(st, looks, grace).lastMod == Seen(st.lastMod, looks)
  {
    if looks != [] { LastModIsSeen(st, looks[..|looks| - 1], grace); }
  }

  /** The state startWatching leaves, with the modification time it has noted. */
  function Start(noted: int): State { State(noted, 0, true, {}) }

  /** The file has not been found changed, nor found at all at a time at which the first check would be made. */
  ghost predicate Untouched(noted: int, looks: seq<Look>, grace: int) {
    forall k :: 0 <= k < |looks| ==> looks[k].mtime == None || (looks[k].mtime == Some(noted) && looks[k].now <= grace)
  }

  /** Until the first change or check the state is that of start-up; from then on the wait is for the last change. */
  lemma {:induction false} StartOrWaits(noted: int, looks: seq<Look>, grace: int)
    ensures if Untouched(noted, looks, grace) then After(Start(noted), looks, grace) == Start(noted)
            else WaitsForLast(After(Start(noted), looks, grace))
  {
    if looks != [] {
      var n := |looks| - 1;
      StartOrWaits(noted, looks[..n], grace);
      assert Untouched(noted, looks, grace) <==>
        && Untouched(noted, looks[..n], grace)
        && (looks[n].mtime == None || (looks[n].mtime == Some(noted) && looks[n].now <= grace))
      by {
        assert forall k :: 0 <= k < n ==> looks[..n][k] == looks[k];
      }
    }
  }

  /** Look k is the first to find the file, as it was at start-up, and finds it freshly saved. */
  ghost predicate FreshAtStart(noted: int, looks: seq<Look>, grace: int, k: nat)
    requires k < |looks|
  {
    && Untouched(noted, looks[..k], grace) && looks[k].mtime == Some(noted)
    && grace < looks[k].now <= noted + grace
  }

  /**
   * Over every run from start-up, look k reads the file before its quiet time
   * if and only if it finds a fresh save that follows the one seen last by the
   * grace period or more, or is the first look and finds the file as it was
   * noted at start-up, but freshly saved.
   */
  lemma {:induction false} CheckedEarlyIff(noted: int, looks: seq<Look>, grace: int, k: nat)
    requires grace > 0 && k < |looks|
    ensures CheckedAt(Start(noted), looks, grace, k) && !Quiet(looks[k], grace) <==>
            FreshAfterGap(Seen(noted, looks[..k]), looks[k], grace) || FreshAtStart(noted, looks, grace, k)
  {
    var st := After(Start(noted), looks[..k], grace);
    StartOrWaits(noted, looks[..k], grace);
    LastModIsSeen(Start(noted), looks[..k], grace);
    if !Untouched(noted, looks[..k], grace) {
      EarlyIff(st, looks[k], grace);
    }
  }

  /** So the promise, no restart before the last edit is a grace period old, holds for the runs without such a look. */
  lemma {:induction false} AlwaysQuietIff(noted: int, looks: seq<Look>, grace: int)
    requires grace > 0
    ensures (forall k :: 0 <= k < |looks| && CheckedAt(Start(noted), looks, grace, k) ==> Quiet(looks[k], grace)) <==>
            (forall k :: 0 <= k < |looks| ==>
               !FreshAfterGap(Seen(noted, looks[..k]), looks[k], grace) && !FreshAtStart(noted, looks, grace, k))
  {
    forall k | 0 <= k < |looks|
      ensures CheckedAt(Start(noted), looks, grace, k) && !Quiet(looks[k], grace) <==>
              FreshAfterGap(Seen(noted, looks[..k]), looks[k], grace) || FreshAtStart(noted, looks, grace, k)
    {
      CheckedEarlyIff(noted, looks, grace, k);
    }
  }

  /** Started one second after a save, the first look reads the file at once. */
  lemma FreshFileReadAtStart(lines: Option<seq<string>>)
    ensures var looks := [Look(Some(1000), 1001, lines)];
      FreshAtStart(1000, looks, 60, 0) && CheckedAt(Start(1000), looks, 60, 0) && !Quiet(looks[0], 60)
  {
    var looks := [Look(Some(1000), 1001, lines)];
    assert looks[..0] == [];
    CheckedEarlyIff(1000, looks, 60, 0);
  }
}
