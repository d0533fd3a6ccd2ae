/** What an operation of the concurrent pool achieves when it runs alone over a store that works. */
module PoolV3Alone {
  import opened Storage
  import opened PoolV3
  import opened PoolV3Invariant
  import opened PoolV3Coherence
  import opened PoolV3Fetch
  import opened PoolV3Progress
  import opened PoolV3Runs
  import opened PoolV3Schedules
  import opened PoolV3Search

  /** A step of thread `t` that does not start anything; its store calls succeed. */
  ghost predicate Smooth(a: Action, t: nat) {
    a == Run(t) || a == StoreWrite(t, Written) || a == StoreRead(t, true)
  }

  ghost predicate SmoothSteps(acts: seq<Action>, t: nat) {
    forall k :: 0 <= k < |acts| ==> Smooth(acts[k], t)
  }

  lemma OwnIsSmooth(acts: seq<Action>, t: nat)
    requires OwnSteps(acts, t)
    ensures SmoothSteps(acts, t)
  {
  }

  /** A page that exists goes on existing. */
  lemma StillExists(s: State, a: Action, p: PageId)
    requires Inv(s) && Enabled(s, a) && TearSafe(s, a) && p in s.store
    ensures p in Apply(s, a).store && Inv(Apply(s, a))
  {
    KeepStep(s, a);
    HistoryGrows(s, a, p);
  }

  lemma {:induction false} SmoothKeeps(path: seq<State>, acts: seq<Action>, t: nat, p: PageId, m: nat)
    requires Path(path, acts) && SmoothSteps(acts, t) && m < |path| && Inv(path[0]) && p in path[0].store
    ensures Inv(path[m]) && p in path[m].store
  {
    if m > 0 {
      SmoothKeeps(path, acts, t, p, m - 1);
      assert Takes(path[m - 1], acts[m - 1], path[m]);
      StillExists(path[m - 1], acts[m - 1], p);
    }
  }

  lemma {:induction false} StaysFetching(path: seq<State>, acts: seq<Action>, t: nat, p: PageId, mode: AccessMode,
                                         m: nat)
    requires Path(path, acts) && OwnSteps(acts, t) && m < |path|
    requires t < |path[0].threads| && Fetching(path[0].threads[t], p, mode) && !Failing(path[0].threads[t])
    ensures t < |path[m].threads|
    ensures path[m].threads[t].Idle? || (Fetching(path[m].threads[t], p, mode) && !Failing(path[m].threads[t]))
  {
    if m > 0 {
      StaysFetching(path, acts, t, p, mode, m - 1);
      assert Takes(path[m - 1], acts[m - 1], path[m]);
      FetchKeepsPage(path[m - 1], acts[m - 1], t, p, mode);
    }
  }

  // ----- from a reserved victim to the reply -----

  /** The thread loads page `p`, has a victim, and no store call has failed. */
  ghost predicate LoadsSmoothly(s: State, t: nat, p: PageId, mode: AccessMode) {
    && t < |s.threads| && Committed(s.threads[t]) && Fetching(s.threads[t], p, mode) && !Failing(s.threads[t])
    && p in s.store
  }

  ghost predicate Replied(s: State, t: nat, p: PageId) {
    && t < |s.threads| && s.threads[t].Idle? && s.threads[t].reply.Guarded?
    && Delivers(s, s.threads[t].reply.guard, p)
  }

  lemma SmoothAction(s: State, t: nat, p: PageId, mode: AccessMode) returns (a: Action)
    requires Inv(s) && LoadsSmoothly(s, t, p, mode)
    ensures Smooth(a, t) && Enabled(s, a) && TearSafe(s, a) && !StoreFails(a, t)
  {
    VictimHolderRuns(s, t);
    a := if Enabled(s, Run(t)) then Run(t)
         else if Enabled(s, StoreWrite(t, Written)) then StoreWrite(t, Written) else StoreRead(t, true);
  }

  lemma ReturningReplies(s: State, t: nat)
    requires CanRun(s, t) && s.threads[t].Load? && s.threads[t].stage.Returning?
    ensures RunStep(s, t).threads[t] == Idle(Guarded(s.serial))
  {
    assert RunStep(s, t) == ReturnStep(s, t);
  }

  lemma FinishingReturns(s: State, t: nat)
    requires CanRun(s, t) && s.threads[t].Load? && s.threads[t].stage.Finishing?
    ensures RunStep(s, t).threads[t].Load? && RunStep(s, t).threads[t].stage.Returning?
  {
  }

  /** A step of the load brings it nearer to its reply, or is the reply. */
  lemma LoadStepsOn(s: State, a: Action, t: nat, p: PageId, mode: AccessMode)
    requires Inv(s) && LoadsSmoothly(s, t, p, mode) && Smooth(a, t) && Enabled(s, a) && TearSafe(s, a)
    ensures Inv(Apply(s, a))
    ensures if s.threads[t].stage.Returning? then Replied(Apply(s, a), t, p)
            else LoadsSmoothly(Apply(s, a), t, p, mode)
                 && StepsLeft(Apply(s, a).threads[t].stage) < StepsLeft(s.threads[t].stage)
  {
    StillExists(s, a, p);
    FetchKeepsPage(s, a, t, p, mode);
    if s.threads[t].stage.Returning? {
      ReturningReplies(s, t);
      ReplyDelivers(s, a, t, p, mode);
    } else {
      VictimHolderDescends(s, a, t);
      if s.threads[t].stage.Finishing? { FinishingReturns(s, t); }
      else { NotFinished(s, a, t); }
    }
  }

  /** Without a failure only the step from Finishing finishes the pending. */
  lemma NotFinished(s: State, a: Action, t: nat)
    requires Inv(s) && Smooth(a, t) && Enabled(s, a) && t < |s.threads| && Committed(s.threads[t])
    requires !Failing(s.threads[t]) && !s.threads[t].stage.Returning? && !s.threads[t].stage.Finishing?
    ensures s.threads[t].pending !in Apply(s, a).done
  {
    assert ThreadOk(s, t);
    if a == Run(t) {
      match s.threads[t].stage
      case Reserved(_, _) =>
      case Cleaning(_, _) =>
      case Replacing(_, _, _) =>
      case RemovingOld(_, _) =>
      case Publishing(_) =>
    }
  }

  lemma {:induction false} LoadAlone(s: State, t: nat, p: PageId, mode: AccessMode)
    returns (path: seq<State>, acts: seq<Action>)
    requires Inv(s) && LoadsSmoothly(s, t, p, mode)
    ensures Path(path, acts) && path[0] == s && SmoothSteps(acts, t)
    ensures Inv(path[|acts|]) && Replied(path[|acts|], t, p)
    decreases StepsLeft(s.threads[t].stage)
  {
    var a := SmoothAction(s, t, p, mode);
    var next := Apply(s, a);
    LoadStepsOn(s, a, t, p, mode);
    path, acts := [s, next], [a];
    assert Takes(path[0], acts[0], path[1]);
    if !s.threads[t].stage.Returning? {
      var more, moreActs := LoadAlone(next, t, p, mode);
      path, acts := Join(path, acts, more, moreActs);
    }
  }

  // ----- a fetch -----

  /** The table knows the page, and nobody is loading or evicting it. */
  ghost predicate IsReady(s: State, p: PageId) {
    p in s.table && s.table[p].Ready?
  }

  /** The thread is blocked until the load that the entry of `p` names is finished. */
  ghost predicate WaitsForPage(s: State, r: State, t: nat, p: PageId, mode: AccessMode)
    requires p in s.table && !s.table[p].Ready?
  {
    t < |r.threads| && r.threads[t] == Waiting(p, mode, s.table[p].pending) && Blocked(r, t)
  }

  /** How a lone fetch of `p` ends: with a guard, waiting for a load, or reporting that all frames are pinned. */
  ghost predicate FetchEnds(s: State, r: State, t: nat, p: PageId, mode: AccessMode) {
    if p in s.table && !IsReady(s, p) then WaitsForPage(s, r, t, p, mode)
    else if IsReady(s, p) || SomeUnpinned(s) then Replied(r, t, p)
    else if SomeEvicting(s, 0) then AwaitsSome(s, r, t)
    else ReportsAllPinned(r, t)
  }

  lemma HitAlone(s: State, t: nat, p: PageId, mode: AccessMode) returns (path: seq<State>, acts: seq<Action>)
    requires Inv(s) && t < |s.threads| && s.threads[t] == Lookup(p, mode) && IsReady(s, p)
    ensures Path(path, acts) && path[0] == s && SmoothSteps(acts, t) && Replied(path[|acts|], t, p)
  {
    var next := OwnStepOf(s, t);
    ReplyDelivers(s, Run(t), t, p, mode);
    path, acts := [s, next], [Run(t)];
  }

  lemma WaitAlone(s: State, t: nat, p: PageId, mode: AccessMode) returns (path: seq<State>, acts: seq<Action>)
    requires Inv(s) && t < |s.threads| && s.threads[t] == Lookup(p, mode) && p in s.table && !IsReady(s, p)
    ensures Path(path, acts) && path[0] == s && SmoothSteps(acts, t) && WaitsForPage(s, path[|acts|], t, p, mode)
  {
    ReachablePendingIsLive(s, s.table[p].pending);
    var next := OwnStepOf(s, t);
    path, acts := [s, next], [Run(t)];
  }

  lemma OwnStepOf(s: State, t: nat) returns (next: State)
    requires Inv(s) && t < |s.threads| && !s.threads[t].Idle? && !AtStore(s.threads[t]) && !Blocked(s, t)
    ensures Takes(s, Run(t), next) && next == RunStep(s, t) && Inv(next)
  {
    NoPanic(s, t);
    next := OwnStep(s, t);
  }

  /** A page that nobody has is claimed in two steps, and the search begins. */
  lemma ClaimAlone(s: State, t: nat, p: PageId, mode: AccessMode) returns (path: seq<State>, acts: seq<Action>)
    requires Inv(s) && t < |s.threads| && s.threads[t] == Lookup(p, mode) && p !in s.table
    ensures Path(path, acts) && path[0] == s && OwnSteps(acts, t) && Inv(path[|acts|])
    ensures var r := path[|acts|];
            && r.frames == s.frames && r.hand == s.hand && r.store == s.store
            && Searching(r, t, Choosing(0)) && Fetching(r.threads[t], p, mode)
  {
    var claiming := OwnStepOf(s, t);
    assert claiming == Goto(s, t, Claiming(p, mode));
    var loading := OwnStepOf(claiming, t);
    path, acts := [s, claiming, loading], [Run(t), Run(t)];
    assert Takes(path[0], acts[0], path[1]);
  }

  lemma MissAlone(s: State, t: nat, p: PageId, mode: AccessMode) returns (path: seq<State>, acts: seq<Action>)
    requires Inv(s) && Searching(s, t, Choosing(0)) && Fetching(s.threads[t], p, mode) && HandGoesRound(s)
    requires p in s.store
    ensures Path(path, acts) && path[0] == s && SmoothSteps(acts, t)
    ensures if SomeUnpinned(s) then Replied(path[|acts|], t, p)
            else if SomeEvicting(s, 0) then AwaitsSome(s, path[|acts|], t) else ReportsAllPinned(path[|acts|], t)
  {
    path, acts := AloneFindsUnpinned(s, t);
    OwnIsSmooth(acts, t);
    if SomeUnpinned(s) {
      var reserved := path[|acts|];
      SmoothKeeps(path, acts, t, p, |acts|);
      StaysFetching(path, acts, t, p, mode, |acts|);
      var more, moreActs := LoadAlone(reserved, t, p, mode);
      path, acts := Join(path, acts, more, moreActs);
    }
  }

  /**
  A lone fetch of a page that exists, over a store that works and with a hand that goes round
  evenly. If another thread is loading or evicting the page, it waits for that load. Else, if the
  page is in a frame or some frame is unpinned, it ends with a guard on the page that shows its last
  bytes; and else it waits for a frame being evicted, or reports that all frames are pinned.
  */
  lemma FetchAlone(s: State, t: nat, p: PageId, mode: AccessMode) returns (path: seq<State>, acts: seq<Action>)
    requires Inv(s) && Enabled(s, StartFetch(t, p, mode)) && HandGoesRound(s) && p in s.store
    ensures Path(path, acts) && path[0] == s && acts != [] && acts[0] == StartFetch(t, p, mode)
    ensures SmoothSteps(acts[1..], t) && FetchEnds(s, path[|acts|], t, p, mode)
  {
    KeepStep(s, StartFetch(t, p, mode));
    var started := Apply(s, StartFetch(t, p, mode));
    var more, moreActs;
    if IsReady(s, p) {
      more, moreActs := HitAlone(started, t, p, mode);
    } else if p in s.table {
      more, moreActs := WaitAlone(started, t, p, mode);
    } else {
      more, moreActs := ClaimAlone(started, t, p, mode);
      OwnIsSmooth(moreActs, t);
      var claimed := more[|moreActs|];
      var rest, restActs := MissAlone(claimed, t, p, mode);
      SameFramesSameEnd(s, claimed, rest[|restActs|], t, p, mode);
      more, moreActs := Join(more, moreActs, rest, restActs);
    }
    path, acts := [s, started], [StartFetch(t, p, mode)];
    assert Takes(path[0], acts[0], path[1]);
    path, acts := Join(path, acts, more, moreActs);
    assert acts[1..] == moreActs;
  }

  lemma SameFramesSameEnd(s: State, again: State, r: State, t: nat, p: PageId, mode: AccessMode)
    requires again.frames == s.frames && p !in s.table
    requires if SomeUnpinned(again) then Replied(r, t, p)
             else if SomeEvicting(again, 0) then AwaitsSome(again, r, t) else ReportsAllPinned(r, t)
    ensures FetchEnds(s, r, t, p, mode)
  {
    assert SomeUnpinned(again) <==> SomeUnpinned(s);
    assert SomeEvicting(again, 0) <==> SomeEvicting(s, 0);
  }

  // ----- a load that fails -----

  /** The pool once the failed load of thread `t` has been undone. */
  ghost function Undone(s: State, t: nat, f: nat, prior: Option<PageId>): State
    requires t < |s.threads| && s.threads[t].Load? && f < |s.frames|
  {
    var state := if prior.Some? then Valid(prior.value) else Empty;
    var table := if prior.Some? then s.table[prior.value := Ready(f)] else s.table;
    s.(frames := s.frames[f := s.frames[f].(state := state, pin := 0)], table := table - {s.threads[t].page},
       done := s.done + {s.threads[t].pending}, threads := s.threads[t := Idle(Failed(Io))])
  }

  lemma UnpinsAndUnclaims(s: State, t: nat, f: nat) returns (path: seq<State>, acts: seq<Action>)
    requires Inv(s) && t < |s.threads| && s.threads[t].Load? && s.threads[t].stage == Unpinning(f)
    requires f < |s.frames| && s.frames[f].pin == 1
    ensures acts == [Run(t), Run(t)] && Path(path, acts) && path[0] == s && Inv(path[2])
    ensures path[2] == GotoStage(s, t, RolledBack).(frames := s.frames[f := s.frames[f].(pin := 0)],
                                                    table := s.table - {s.threads[t].page})
  {
    var unpinned := OwnStepOf(s, t);
    assert unpinned == GotoStage(SetFrame(s, f, Unpinned(s.frames[f])), t, Unclaiming);
    var unclaimed := OwnStepOf(unpinned, t);
    path, acts := [s, unpinned, unclaimed], [Run(t), Run(t)];
    assert Takes(path[0], acts[0], path[1]);
  }

  lemma Restores(s: State, t: nat) returns (path: seq<State>, acts: seq<Action>)
    requires Inv(s) && t < |s.threads| && s.threads[t].Load? && s.threads[t].stage.Restoring?
    requires s.threads[t].stage.f < |s.frames|
    ensures acts == [Run(t)] && path == [s, RestoreStep(s, t)] && Path(path, acts) && Inv(path[1])
  {
    var restored := OwnStepOf(s, t);
    path, acts := [s, restored], [Run(t)];
  }

  lemma ReportsError(s: State, t: nat) returns (path: seq<State>, acts: seq<Action>)
    requires Inv(s) && t < |s.threads| && s.threads[t].Load? && s.threads[t].stage.RolledBack?
    ensures acts == [Run(t)] && path == [s, FinishStep(s, t, Idle(Failed(Io)))] && Path(path, acts)
  {
    var idle := OwnStepOf(s, t);
    path, acts := [s, idle], [Run(t)];
  }

  /**
  When a store call of a load has failed, four steps of its own undo the load: the frame is
  unpinned and holds its old page, with its bytes and its dirty mark, the old page is mapped to it
  again, the page that was to be loaded is not mapped, and the fetch reports an I/O error.
  */
  lemma FailedLoadIsUndone(s: State, t: nat) returns (path: seq<State>, acts: seq<Action>)
    requires Inv(s) && t < |s.threads| && s.threads[t].Load? && s.threads[t].stage.Restoring?
    ensures s.threads[t].stage.f < |s.frames|
    ensures acts == [Run(t), Run(t), Run(t), Run(t)] && Path(path, acts) && path[0] == s
    ensures path[|acts|] == Undone(s, t, s.threads[t].stage.f, s.threads[t].stage.prior)
  {
    VictimIsPinnedOnce(s, t);
    path, acts := Restores(s, t);
    var more, moreActs := UnpinsAndUnclaims(path[1], t, s.threads[t].stage.f);
    path, acts := Join(path, acts, more, moreActs);
    more, moreActs := ReportsError(path[|acts|], t);
    path, acts := Join(path, acts, more, moreActs);
    UndoneInAll(s, t);
  }

  lemma VictimIsPinnedOnce(s: State, t: nat)
    requires Inv(s) && t < |s.threads| && s.threads[t].Load? && s.threads[t].stage.Restoring?
    ensures s.threads[t].stage.f < |s.frames| && s.frames[s.threads[t].stage.f].pin == 1
  {
    assert ThreadOk(s, t);
    PinAccounting(s, s.threads[t].stage.f);
  }

  lemma UndoneInAll(s: State, t: nat)
    requires t < |s.threads| && s.threads[t].Load? && s.threads[t].stage.Restoring? && s.threads[t].stage.f < |s.frames|
    ensures var f, restored := s.threads[t].stage.f, RestoreStep(s, t);
            var rolledBack := GotoStage(restored, t, RolledBack).(
              frames := restored.frames[f := restored.frames[f].(pin := 0)],
              table := restored.table - {restored.threads[t].page});
            FinishStep(rolledBack, t, Idle(Failed(Io))) == Undone(s, t, f, s.threads[t].stage.prior)
  {
  }

  // ----- a flush -----

  /** How much of its work is left to a flush of `n` frames. */
  ghost function FlushLeft(n: nat, pc: Pc): int
    requires pc.Flush?
  {
    8 * (n - pc.i) + match pc.phase
                     case Visiting => 6
                     case Awaiting(_) => 7
                     case Pinned(_) => 5
                     case Locking(_) => 4
                     case Locked(_) => 3
                     case Wrote(_) => 2
                     case Releasing(_) => 1
                     case Aborting(_) => 0
  }

  /** Nothing stands in the way of the flush: no frame is being evicted and no guard is writing. */
  ghost predicate Unhindered(s: State, t: nat) {
    && t < |s.threads| && s.threads[t].Flush? && s.threads[t].i <= |s.frames|
    && !s.threads[t].phase.Awaiting? && !Failing(s.threads[t])
    && !SomeEvicting(s, 0) && (forall g :: g in s.guards ==> !s.guards[g].writing)
  }

  lemma FlushAction(s: State, t: nat) returns (a: Action)
    requires Inv(s) && Unhindered(s, t)
    ensures Smooth(a, t) && Enabled(s, a) && TearSafe(s, a) && !StoreFails(a, t)
    ensures if s.threads[t].phase.Locked? then a == StoreWrite(t, Written) else a == Run(t)
  {
    UnblockedSteps(s, t);
    a := if s.threads[t].phase.Locked? then StoreWrite(t, Written) else Run(t);
  }

  /** A step brings the flush nearer to its reply, or is the reply. */
  ghost predicate FlushAdvances(s: State, t: nat, next: State)
    requires t < |s.threads| && s.threads[t].Flush?
  {
    && t < |next.threads|
    && (next.threads[t].Flush? ==>
          && Unhindered(next, t) && next.threads[t].start == s.threads[t].start
          && |next.frames| == |s.frames|
          && 0 <= FlushLeft(|s.frames|, next.threads[t]) < FlushLeft(|s.frames|, s.threads[t]))
    && (!next.threads[t].Flush? ==> next.threads[t] == Idle(Flushed(s.threads[t].start)))
  }

  lemma SameStates(s: State, next: State, t: nat)
    requires Unhindered(s, t) && next.guards == s.guards && |next.frames| == |s.frames|
    requires forall f :: 0 <= f < |s.frames| ==> next.frames[f].state == s.frames[f].state
    ensures !SomeEvicting(next, 0) && forall g :: g in next.guards ==> !next.guards[g].writing
  {
  }

  lemma VisitAdvances(s: State, t: nat)
    requires CanRun(s, t) && Unhindered(s, t) && s.threads[t].phase.Visiting?
    ensures FlushAdvances(s, t, VisitStep(s, t))
  {
    SameStates(s, VisitStep(s, t), t);
  }

  lemma LeaveAdvances(s: State, t: nat)
    requires CanRun(s, t) && Unhindered(s, t) && s.threads[t].i < |s.frames|
    requires s.threads[t].phase.Wrote? || s.threads[t].phase.Releasing?
    ensures FlushAdvances(s, t, LeaveStep(s, t))
  {
    SameStates(s, LeaveStep(s, t), t);
  }

  lemma PhaseAdvances(s: State, t: nat)
    requires CanRun(s, t) && Unhindered(s, t) && s.threads[t].i < |s.frames|
    requires s.threads[t].phase.Pinned? || s.threads[t].phase.Locking?
    ensures FlushAdvances(s, t, FlushStep(s, t))
  {
    SameStates(s, FlushStep(s, t), t);
  }

  lemma WriteAdvances(s: State, t: nat)
    requires Enabled(s, StoreWrite(t, Written)) && Unhindered(s, t) && s.threads[t].i < |s.frames|
    requires s.threads[t].phase.Locked?
    ensures FlushAdvances(s, t, StoreWriteStep(s, t, Written))
  {
    SameStates(s, StoreWriteStep(s, t, Written), t);
  }

  lemma FlushStepsOn(s: State, a: Action, t: nat)
    requires Inv(s) && Unhindered(s, t) && Enabled(s, a)
    requires if s.threads[t].phase.Locked? then a == StoreWrite(t, Written) else a == Run(t)
    ensures FlushAdvances(s, t, Apply(s, a))
  {
    assert ThreadOk(s, t);
    match s.threads[t].phase
    case Visiting => VisitAdvances(s, t);
    case Pinned(_) => PhaseAdvances(s, t);
    case Locking(_) => PhaseAdvances(s, t);
    case Locked(_) => WriteAdvances(s, t);
    case _ => LeaveAdvances(s, t);
  }

  lemma {:induction false} FlushRunsOut(s: State, t: nat) returns (path: seq<State>, acts: seq<Action>)
    requires Inv(s) && Unhindered(s, t)
    ensures Path(path, acts) && path[0] == s && SmoothSteps(acts, t) && t < |path[|acts|].threads|
    ensures path[|acts|].threads[t] == Idle(Flushed(s.threads[t].start))
    decreases FlushLeft(|s.frames|, s.threads[t])
  {
    var a := FlushAction(s, t);
    var next := Apply(s, a);
    FlushStepsOn(s, a, t);
    KeepStep(s, a);
    path, acts := [s, next], [a];
    assert Takes(path[0], acts[0], path[1]);
    if next.threads[t].Flush? {
      var more, moreActs := FlushRunsOut(next, t);
      path, acts := Join(path, acts, more, moreActs);
    }
  }

  /** A lone flush over a store that works replies Ok, unless frames are being evicted or guards are writing. */
  lemma FlushAlone(s: State, t: nat) returns (path: seq<State>, acts: seq<Action>)
    requires Inv(s) && Enabled(s, StartFlush(t)) && !SomeEvicting(s, 0)
    requires forall g :: g in s.guards ==> !s.guards[g].writing
    ensures Path(path, acts) && path[0] == s && acts != [] && acts[0] == StartFlush(t) && SmoothSteps(acts[1..], t)
    ensures t < |path[|acts|].threads| && path[|acts|].threads[t] == Idle(Flushed(VersionsNow(s)))
  {
    KeepStep(s, StartFlush(t));
    var started := Apply(s, StartFlush(t));
    path, acts := [s, started], [StartFlush(t)];
    assert Takes(path[0], acts[0], path[1]);
    var more, moreActs := FlushRunsOut(started, t);
    path, acts := Join(path, acts, more, moreActs);
    assert acts[1..] == moreActs;
  }
}
