/** What a fetch of the concurrent pool has seen when it reports that all frames are pinned. */
module PoolV3GivingUp {
  // Since it claimed its page, or since the last load that it waited for, every look of two sweeps was in vain, and
  // then a scan over all frames met none that was being evicted.

  import opened Storage
  import opened PoolV3
  import opened PoolV3Invariant
  import opened PoolV3Progress
  import opened PoolV3Runs
  import opened PoolV3Schedules

  /** The thread is searching, and not waiting. */
  ghost predicate Searches(s: State, t: nat) {
    && t < |s.threads| && s.threads[t].Load? && IsSearch(s.threads[t].stage)
    && !s.threads[t].stage.AwaitingVictim? && SearchInRange(|s.frames|, s.threads[t].stage)
  }

  /** How many of its `2n` looks and `n` scanned frames the search has behind it. */
  ghost function Progress(n: nat, stage: LoadStage): int {
    match stage
    case Choosing(k) => k
    case Looking(k, _) => k
    case Reserving(k, _, _) => k
    case Scanning(j) => 2 * n + j
    case _ => 3 * n
  }

  /** In this state the thread's next step ends look `i` in vain, or finds scanned frame `i - 2n` not being evicted. */
  ghost predicate EndsInVain(s: State, t: nat, i: nat)
    requires t < |s.threads| && s.threads[t].Load?
  {
    var n := |s.frames|;
    match s.threads[t].stage
    case Looking(k, f) => i == k < 2 * n && f < n && s.frames[f].state.Evicting?
    case Reserving(k, f, snapshot) =>
      && i == k < 2 * n && f < n
      && (!Reservable(s, f, snapshot) || (k < n && s.frames[f].referenced))
    case Scanning(j) => i == 2 * n + j && j < n && !s.frames[j].state.Evicting?
    case _ => false
  }

  lemma SameFrameCount(s: State, a: Action)
    requires Enabled(s, a)
    ensures |Apply(s, a).frames| == |s.frames|
  {
  }

  /** A step of a search either ends one look or scanned frame in vain, or leaves its progress as it is. */
  ghost predicate Advanced(s: State, a: Action, t: nat, next: State)
    requires Searches(s, t) && Searches(next, t)
  {
    var before, after := Progress(|s.frames|, s.threads[t].stage), Progress(|s.frames|, next.threads[t].stage);
    after == before || (after == before + 1 && before >= 0 && a == Run(t) && EndsInVain(s, t, before))
  }

  lemma TickAdvances(s: State, t: nat)
    requires CanRun(s, t) && Searches(s, t) && s.threads[t].stage.Choosing?
    ensures Searches(RunStep(s, t), t) && Advanced(s, Run(t), t, RunStep(s, t))
  {
    TickDescends(s, t);
    assert RunStep(s, t) == TickStep(s, t);
  }

  lemma SnapshotAdvances(s: State, t: nat)
    requires CanRun(s, t) && Searches(s, t) && s.threads[t].stage.Looking?
    ensures Searches(RunStep(s, t), t) && Advanced(s, Run(t), t, RunStep(s, t))
  {
    SnapshotDescends(s, t);
    assert RunStep(s, t) == SnapshotStep(s, t);
  }

  lemma ReserveAdvances(s: State, t: nat)
    requires CanRun(s, t) && Searches(s, t) && s.threads[t].stage.Reserving?
    ensures Searches(RunStep(s, t), t) ==> Advanced(s, Run(t), t, RunStep(s, t))
    ensures !Searches(RunStep(s, t), t) ==> RunStep(s, t).threads[t].Load? && RunStep(s, t).threads[t].stage.Reserved?
  {
    ReserveDescends(s, t);
    assert RunStep(s, t) == ReserveStep(s, t);
  }

  lemma ScanAdvances(s: State, t: nat)
    requires CanRun(s, t) && Searches(s, t) && s.threads[t].stage.Scanning?
    ensures Searches(RunStep(s, t), t) ==> Advanced(s, Run(t), t, RunStep(s, t))
    ensures !Searches(RunStep(s, t), t) ==>
              RunStep(s, t).threads[t].Load? && RunStep(s, t).threads[t].stage.AwaitingVictim?
  {
    ScanDescends(s, t);
    assert RunStep(s, t) == ScanStep(s, t);
  }

  /** Whatever anyone does, a search goes on in this way, ends with a victim or a wait, or replies from its end. */
  lemma SearchAdvances(s: State, a: Action, t: nat)
    requires Enabled(s, a) && Searches(s, t)
    ensures |Apply(s, a).threads| == |s.threads| && |Apply(s, a).frames| == |s.frames|
    ensures Searches(Apply(s, a), t) ==> Advanced(s, a, t, Apply(s, a))
    ensures Apply(s, a).threads[t].Idle? ==> a == Run(t) && s.threads[t].stage.GivenUp?
  {
    OthersStay(s, a, t);
    SameFrameCount(s, a);
    if a == Run(t) {
      match s.threads[t].stage
      case Choosing(_) => TickAdvances(s, t);
      case Looking(_, _) => SnapshotAdvances(s, t);
      case Reserving(_, _, _) => ReserveAdvances(s, t);
      case Scanning(_) => ScanAdvances(s, t);
      case GivingUp =>
      case GivenUp =>
    }
  }

  // ----- the search behind a state -----

  /** `at[i]` is where look or scanned frame `i` of the search that is under way in state `m` ended in vain. */
  ghost predicate InVain(path: seq<State>, acts: seq<Action>, t: nat, from: nat, at: seq<nat>, m: nat) {
    && from <= m < |path| <= |acts| + 1
    && (forall j :: from <= j <= m ==> Searches(path[j], t))
    && path[from].threads[t].stage == Choosing(0)
    && |at| == Progress(|path[m].frames|, path[m].threads[t].stage)
    && (forall i :: 0 <= i < |at| ==>
          from <= at[i] < m && acts[at[i]] == Run(t) && EndsInVain(path[at[i]], t, i))
    && forall i, j :: 0 <= i < j < |at| ==> at[i] < at[j]
  }

  /** A search, if there is one, is within its sweeps and its scan. */
  ghost predicate Tidy(s: State, t: nat) {
    && t < |s.threads|
    && (s.threads[t].Load? && IsSearch(s.threads[t].stage) && !s.threads[t].stage.AwaitingVictim? ==> Searches(s, t))
  }

  lemma InstallNeverSearches(s: State, t: nat)
    requires CanRun(s, t) && s.threads[t].Load? && IsInstall(s.threads[t].stage)
    ensures !Searches(InstallStep(s, t), t) && Tidy(InstallStep(s, t), t)
  {
    match s.threads[t].stage
    case Reserved(_, _) =>
    case Cleaning(_, _) =>
    case Replacing(_, _, _) =>
    case RemovingOld(_, _) =>
    case Publishing(_) =>
    case Finishing(_) =>
    case Returning(_) =>
  }

  lemma RollbackNeverSearches(s: State, t: nat)
    requires CanRun(s, t) && s.threads[t].Load? && IsRollback(s.threads[t].stage)
    ensures !Searches(RollbackStep(s, t), t) && Tidy(RollbackStep(s, t), t)
  {
  }

  lemma FlushNeverSearches(s: State, t: nat)
    requires CanRun(s, t) && s.threads[t].Flush?
    ensures !Searches(FlushStep(s, t), t) && Tidy(FlushStep(s, t), t)
  {
  }

  lemma RunBegins(s: State, t: nat)
    requires CanRun(s, t) && Tidy(s, t) && !Searches(s, t)
    ensures Tidy(RunStep(s, t), t)
    ensures Searches(RunStep(s, t), t) ==> RunStep(s, t).threads[t].stage == Choosing(0)
  {
    match s.threads[t]
    case Lookup(_, _) =>
    case Waiting(_, _, _) =>
    case Claiming(_, _) =>
    case Load(_, _, _, stage) =>
      if IsInstall(stage) { InstallNeverSearches(s, t); }
      else if IsRollback(stage) { RollbackNeverSearches(s, t); }
    case Flush(_, _, _) => FlushNeverSearches(s, t);
  }

  /** A search begins at its first look: after a claim, or after a wait. */
  lemma SearchBegins(s: State, a: Action, t: nat)
    requires Enabled(s, a) && Tidy(s, t) && !Searches(s, t)
    ensures Tidy(Apply(s, a), t)
    ensures Searches(Apply(s, a), t) ==> Apply(s, a).threads[t].stage == Choosing(0)
  {
    OthersStay(s, a, t);
    SameFrameCount(s, a);
    if a == Run(t) { RunBegins(s, t); }
  }

  lemma StaysTidy(s: State, a: Action, t: nat)
    requires Enabled(s, a) && Tidy(s, t)
    ensures Tidy(Apply(s, a), t)
  {
    if Searches(s, t) { SearchStaysTidy(s, a, t); } else { SearchBegins(s, a, t); }
  }

  lemma SearchStaysTidy(s: State, a: Action, t: nat)
    requires Enabled(s, a) && Searches(s, t)
    ensures Tidy(Apply(s, a), t)
  {
    SearchAdvances(s, a, t);
    if a == Run(t) {
      match s.threads[t].stage
      case Choosing(_) => TickAdvances(s, t);
      case Looking(_, _) => SnapshotAdvances(s, t);
      case Reserving(_, _, _) => ReserveAdvances(s, t);
      case Scanning(_) => ScanAdvances(s, t);
      case GivingUp =>
      case GivenUp =>
    }
  }

  lemma {:induction false} TidyAlong(path: seq<State>, acts: seq<Action>, t: nat, m: nat)
    requires Path(path, acts) && m < |path| && Tidy(path[0], t)
    ensures Tidy(path[m], t)
  {
    if m > 0 {
      TidyAlong(path, acts, t, m - 1);
      assert Takes(path[m - 1], acts[m - 1], path[m]);
      StaysTidy(path[m - 1], acts[m - 1], t);
    }
  }

  /** One more state of the search. */
  lemma OneMore(path: seq<State>, acts: seq<Action>, t: nat, from: nat, at: seq<nat>, m: nat) returns (longer: seq<nat>)
    requires Path(path, acts) && m + 1 < |path| && InVain(path, acts, t, from, at, m) && Searches(path[m + 1], t)
    ensures InVain(path, acts, t, from, longer, m + 1)
  {
    assert Takes(path[m], acts[m], path[m + 1]);
    SearchAdvances(path[m], acts[m], t);
    var before := Progress(|path[m].frames|, path[m].threads[t].stage);
    longer := at;
    if Progress(|path[m].frames|, path[m + 1].threads[t].stage) != before {
      longer := OneMoreItem(path, acts, t, from, at, m);
    }
  }

  lemma OneMoreItem(path: seq<State>, acts: seq<Action>, t: nat, from: nat, at: seq<nat>, m: nat)
    returns (longer: seq<nat>)
    requires m + 1 < |path| <= |acts| + 1 && InVain(path, acts, t, from, at, m) && Searches(path[m + 1], t)
    requires |path[m + 1].frames| == |path[m].frames| && acts[m] == Run(t) && EndsInVain(path[m], t, |at|)
    requires Progress(|path[m].frames|, path[m + 1].threads[t].stage) == |at| + 1
    ensures InVain(path, acts, t, from, longer, m + 1)
  {
    longer := at + [m];
  }

  lemma {:induction false} SearchBehind(path: seq<State>, acts: seq<Action>, t: nat, m: nat)
    returns (from: nat, at: seq<nat>)
    requires Path(path, acts) && m < |path| && Tidy(path[0], t) && !Searches(path[0], t) && Searches(path[m], t)
    ensures InVain(path, acts, t, from, at, m)
    decreases m
  {
    TidyAlong(path, acts, t, m - 1);
    assert Takes(path[m - 1], acts[m - 1], path[m]);
    if Searches(path[m - 1], t) {
      from, at := SearchBehind(path, acts, t, m - 1);
      at := OneMore(path, acts, t, from, at, m - 1);
    } else {
      SearchBegins(path[m - 1], acts[m - 1], t);
      from, at := m, [];
    }
  }

  // ----- the reply -----

  ghost predicate ReportsAllPinned(s: State, t: nat) {
    t < |s.threads| && s.threads[t] == Idle(Failed(AllFramesPinned))
  }

  lemma OnlyFromGivenUp(s: State, a: Action, t: nat)
    requires Enabled(s, a) && Tidy(s, t) && !ReportsAllPinned(s, t) && ReportsAllPinned(Apply(s, a), t)
    ensures a == Run(t) && Searches(s, t) && s.threads[t].stage.GivenUp?
  {
    OthersStay(s, a, t);
    if Searches(s, t) { SearchAdvances(s, a, t); }
  }

  /**
  Over every run in which a fetch of thread `t` comes to report that all frames are pinned: since
  it began to search, or since its last wait, each look of its two sweeps ended in vain, at a frame
  that was being evicted, could not be reserved, or was spared in the first sweep; then it met
  every frame in turn and none was being evicted; and only then did it give up.
  */
  lemma {:induction false} AllPinnedIsEarned(path: seq<State>, acts: seq<Action>, t: nat, last: nat)
    returns (from: nat, at: seq<nat>, m: nat)
    requires Path(path, acts) && last < |path| && Tidy(path[0], t)
    requires !Searches(path[0], t) && !ReportsAllPinned(path[0], t) && ReportsAllPinned(path[last], t)
    ensures m < last && InVain(path, acts, t, from, at, m) && |at| == 3 * |path[m].frames|
    ensures path[m].threads[t].stage.GivenUp? && acts[m] == Run(t) && ReportsAllPinned(path[m + 1], t)
    decreases last
  {
    TidyAlong(path, acts, t, last - 1);
    assert Takes(path[last - 1], acts[last - 1], path[last]);
    if ReportsAllPinned(path[last - 1], t) {
      from, at, m := AllPinnedIsEarned(path, acts, t, last - 1);
    } else {
      m := last - 1;
      OnlyFromGivenUp(path[m], acts[m], t);
      from, at := SearchBehind(path, acts, t, m);
    }
  }
}
