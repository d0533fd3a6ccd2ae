/** The concurrent pool never panics and never deadlocks. */
module PoolV3Progress {
  import opened Storage
  import opened PoolV3
  import opened PoolV3Invariant
  import opened PoolV3Runs

  /** No reachable step indexes out of bounds, underflows a pin count or misses an expected entry. */
  lemma NoPanic(s: State, t: nat)
    requires Inv(s) && t < |s.threads|
    ensures !Panics(s, t)
  {
    var pc := s.threads[t];
    assert ThreadOk(s, t);
    if pc.Lookup? && pc.page in s.table { assert EntryOk(s, pc.page); }
    if PinOf(pc).Some? { PinIsCounted(s, t); }
  }

  lemma PinIsCounted(s: State, t: nat)
    requires Inv(s) && t < |s.threads| && PinOf(s.threads[t]).Some?
    ensures PinOf(s.threads[t]).value < |s.frames| && s.frames[PinOf(s.threads[t]).value].pin > 0
  {
    assert ThreadOk(s, t);
    var f := PinOf(s.threads[t]).value;
    assert PinOk(s, f);
    assert t in ThreadPins(s.threads, f);
  }

  /** Dropping a guard never underflows its frame's pin count. */
  lemma GuardIsCounted(s: State, g: nat)
    requires Inv(s) && g in s.guards && !s.guards[g].writing
    ensures Enabled(s, DropGuard(g))
  {
    assert GuardOk(s, g);
    assert PinOk(s, s.guards[g].frame);
    assert g in GuardPins(s.guards, s.guards[g].frame);
  }

  // ----- who waits for whom -----

  /** The order in which threads may wait: a load in its victim's hands waits for nobody. */
  ghost function WaitRank(pc: Pc): nat {
    match pc
    case Waiting(_, _, _) => 2
    case Load(_, _, _, _) => if Committed(pc) then 0 else 1
    case Flush(_, _, _) => 1
    case _ => 0
  }

  /** The pending the thread waits for. */
  ghost function WaitsOn(pc: Pc): Option<Pending> {
    match pc
    case Waiting(_, _, q) => Some(q)
    case Load(_, _, _, AwaitingVictim(q)) => Some(q)
    case Flush(_, _, Awaiting(q)) => Some(q)
    case _ => None
  }

  /** Every unfinished pending that is waited for has a live loader of strictly lower rank. */
  lemma WaitsDownwards(s: State, t: nat)
    requires Inv(s) && t < |s.threads|
    requires WaitsOn(s.threads[t]).Some? && WaitsOn(s.threads[t]).value !in s.done
    ensures var q := WaitsOn(s.threads[t]).value;
            && Live(s, q)
            && WaitRank(s.threads[q.owner]) < WaitRank(s.threads[t])
  {
    assert ThreadOk(s, t);
  }

  /** The step of an operation in flight that does not start anything new. */
  ghost predicate Advances(s: State, a: Action) {
    && Enabled(s, a)
    && match a
       case Run(_) => true
       case StoreWrite(_, _) => true
       case StoreRead(_, _) => true
       case EndWrite(_, _) => true
       case _ => false
  }

  /** A thread in the middle of an operation that is not blocked can take its next step. */
  lemma UnblockedSteps(s: State, t: nat)
    requires Inv(s) && t < |s.threads| && !s.threads[t].Idle? && !Blocked(s, t)
    ensures exists a :: Advances(s, a)
    ensures Advances(s, Run(t)) || Advances(s, StoreWrite(t, Written)) || Advances(s, StoreRead(t, false))
  {
    NoPanic(s, t);
    var pc := s.threads[t];
    assert ThreadOk(s, t);
    if !AtStore(pc) { assert Advances(s, Run(t)); }
    else if WriteTarget(pc).Some? {
      WriteTargetExists(s, t);
      assert Advances(s, StoreWrite(t, Written));
    }
    else { assert Advances(s, StoreRead(t, false)); }
  }

  lemma WriteTargetExists(s: State, t: nat)
    requires Inv(s) && t < |s.threads| && WriteTarget(s.threads[t]).Some?
    ensures WriteTarget(s.threads[t]).value.0 in s.store && WriteTarget(s.threads[t]).value.1 < |s.frames|
  {
    assert ThreadOk(s, t);
    if s.threads[t].Flush? { assert FrameOk(s, s.threads[t].i); }
  }

  /**
  Deadlock freedom: whenever some thread is in the middle of an operation, some operation in
  flight can advance. The proof follows the waits downwards, two hops at most.
  */
  lemma {:induction false} NoDeadlock(s: State, t: nat)
    requires Inv(s) && t < |s.threads| && !s.threads[t].Idle?
    ensures exists a :: Advances(s, a)
    decreases WaitRank(s.threads[t])
  {
    if !Blocked(s, t) { UnblockedSteps(s, t); }
    else if WaitsOn(s.threads[t]).Some? {
      WaitsDownwards(s, t);
      NoDeadlock(s, WaitsOn(s.threads[t]).value.owner);
    }
    else {
      var g :| g in s.guards && s.guards[g].frame == s.threads[t].i && s.guards[g].writing;
      WriterCanFinish(s, g);
    }
  }

  lemma WriterCanFinish(s: State, g: nat)
    requires Inv(s) && g in s.guards && s.guards[g].writing
    ensures Advances(s, EndWrite(g, []))
  {
    assert GuardOk(s, g);
    assert FrameOk(s, s.guards[g].frame);
  }

  // ----- a victim is never held for ever -----

  /** How many more steps of its own a loader with a victim takes before its pending is finished. */
  ghost function StepsLeft(stage: LoadStage): nat {
    match stage
    case Reserved(_, _) => 8
    case WritingBack(_, _) => 7
    case Cleaning(_, _) => 6
    case Reading(_, _) => 5
    case Replacing(_, _, _) => 4
    case RemovingOld(_, _) => 3
    case Publishing(_) => 2
    case Finishing(_) => 1
    case Restoring(_, _) => 4
    case Unpinning(_) => 3
    case Unclaiming => 2
    case RolledBack => 1
    case _ => 0
  }

  /** A loader with a victim is never blocked: it can always take its next step. */
  lemma VictimHolderRuns(s: State, t: nat)
    requires Inv(s) && t < |s.threads| && Committed(s.threads[t])
    ensures Advances(s, Run(t)) || Advances(s, StoreWrite(t, Written)) || Advances(s, StoreRead(t, false))
  {
    UnblockedSteps(s, t);
  }

  /**
  Each of its own steps, whatever the store answers, brings it nearer to finishing its pending,
  and nobody else's step sends it back.
  */
  lemma VictimHolderDescends(s: State, a: Action, t: nat)
    requires Inv(s) && Enabled(s, a) && t < |s.threads| && Committed(s.threads[t]) && !s.threads[t].stage.Returning?
    ensures |Apply(s, a).threads| == |s.threads|
    ensures var pc' := Apply(s, a).threads[t];
            if a.BeginWrite? || a.EndWrite? || a.DropGuard? || a.t != t then pc' == s.threads[t]
            else
              || s.threads[t].pending in Apply(s, a).done
              || (Committed(pc') && pc'.pending == s.threads[t].pending
                  && StepsLeft(pc'.stage) < StepsLeft(s.threads[t].stage))
  {
    OthersStay(s, a, t);
    if a.Run? && a.t == t { OwnStepDescends(s, t); }
  }

  lemma OwnStepDescends(s: State, t: nat)
    requires Inv(s) && CanRun(s, t) && Committed(s.threads[t]) && !s.threads[t].stage.Returning?
    ensures var s' := LoadStep(s, t);
            || s.threads[t].pending in s'.done
            || (Committed(s'.threads[t]) && s'.threads[t].pending == s.threads[t].pending
                && StepsLeft(s'.threads[t].stage) < StepsLeft(s.threads[t].stage))
  {
    if IsInstall(s.threads[t].stage) { InstallDescends(s, t); } else { RollbackDescends(s, t); }
  }

  lemma InstallDescends(s: State, t: nat)
    requires CanRun(s, t) && s.threads[t].Load? && IsInstall(s.threads[t].stage) && !s.threads[t].stage.Returning?
    ensures var s' := InstallStep(s, t);
            || s.threads[t].pending in s'.done
            || (Committed(s'.threads[t]) && s'.threads[t].pending == s.threads[t].pending
                && StepsLeft(s'.threads[t].stage) < StepsLeft(s.threads[t].stage))
  {
    match s.threads[t].stage
    case Reserved(_, _) =>
    case Cleaning(_, _) =>
    case Replacing(_, _, _) =>
    case RemovingOld(_, _) =>
    case Publishing(_) =>
    case _ =>
  }

  lemma RollbackDescends(s: State, t: nat)
    requires CanRun(s, t) && s.threads[t].Load? && IsRollback(s.threads[t].stage)
    ensures var s' := RollbackStep(s, t);
            || s.threads[t].pending in s'.done
            || (Committed(s'.threads[t]) && s'.threads[t].pending == s.threads[t].pending
                && StepsLeft(s'.threads[t].stage) < StepsLeft(s.threads[t].stage))
  {
    match s.threads[t].stage
    case Restoring(_, _) =>
    case Unpinning(_) =>
    case Unclaiming =>
    case _ =>
  }

  // ----- a search for a victim ends -----

  /** Looks left in the two sweeps, or frames left to ask for an active load. */
  ghost predicate SearchInRange(n: nat, stage: LoadStage) {
    match stage
    case Choosing(k) => k <= 2 * n
    case Looking(k, _) => k < 2 * n
    case Reserving(k, _, _) => k < 2 * n
    case Scanning(j) => j <= n
    case _ => true
  }

  /** How many more of its own steps a loader without a victim searches: fewer than seven per frame, and four. */
  ghost function SearchLeft(n: nat, stage: LoadStage): int {
    match stage
    case Choosing(k) => 3 * (2 * n - k) + n + 4
    case Looking(k, _) => 3 * (2 * n - k) + n + 3
    case Reserving(k, _, _) => 3 * (2 * n - k) + n + 2
    case Scanning(j) => n - j + 2
    case GivingUp => 1
    case _ => 0
  }

  /** The search has ended, with a victim, with a load to wait for or giving up, or it has become shorter. */
  ghost predicate SearchMoves(n: nat, stage: LoadStage, pc: Pc) {
    && pc.Load?
    && (Committed(pc) || pc.stage.AwaitingVictim? || pc.stage.GivenUp?
        || (SearchInRange(n, pc.stage) && 0 <= SearchLeft(n, pc.stage) < SearchLeft(n, stage)))
  }

  /** Each of its own steps ends a search or shortens it. */
  lemma SearchDescends(s: State, t: nat)
    requires CanRun(s, t) && s.threads[t].Load? && IsSearch(s.threads[t].stage)
    requires !s.threads[t].stage.AwaitingVictim? && !s.threads[t].stage.GivenUp?
    requires SearchInRange(|s.frames|, s.threads[t].stage)
    ensures SearchMoves(|s.frames|, s.threads[t].stage, SearchStep(s, t).threads[t])
  {
    match s.threads[t].stage
    case Choosing(_) => TickDescends(s, t);
    case Looking(_, _) => SnapshotDescends(s, t);
    case Reserving(_, _, _) => ReserveDescends(s, t);
    case Scanning(_) => ScanDescends(s, t);
    case _ =>
  }

  lemma TickDescends(s: State, t: nat)
    requires t < |s.threads| && s.threads[t].Load? && s.threads[t].stage.Choosing? && |s.frames| > 0
    requires SearchInRange(|s.frames|, s.threads[t].stage)
    ensures SearchMoves(|s.frames|, s.threads[t].stage, TickStep(s, t).threads[t])
  {
  }

  lemma SnapshotDescends(s: State, t: nat)
    requires t < |s.threads| && s.threads[t].Load? && s.threads[t].stage.Looking?
    requires s.threads[t].stage.f < |s.frames| && SearchInRange(|s.frames|, s.threads[t].stage)
    ensures SearchMoves(|s.frames|, s.threads[t].stage, SnapshotStep(s, t).threads[t])
  {
  }

  lemma ReserveDescends(s: State, t: nat)
    requires t < |s.threads| && s.threads[t].Load? && s.threads[t].stage.Reserving?
    requires s.threads[t].stage.f < |s.frames| && SearchInRange(|s.frames|, s.threads[t].stage)
    ensures SearchMoves(|s.frames|, s.threads[t].stage, ReserveStep(s, t).threads[t])
  {
  }

  lemma ScanDescends(s: State, t: nat)
    requires t < |s.threads| && s.threads[t].Load? && s.threads[t].stage.Scanning?
    requires SearchInRange(|s.frames|, s.threads[t].stage)
    ensures SearchMoves(|s.frames|, s.threads[t].stage, ScanStep(s, t).threads[t])
  {
  }

  // ----- pendings are finished exactly once -----

  /**
  A step finishes at most one pending, its own thread's, which was unfinished before; and a
  loader leaves its load only with its pending finished, on the success path and on both
  failure paths.
  */
  lemma FinishedOnce(s: State, a: Action)
    requires Inv(s) && Enabled(s, a)
    ensures forall q :: q in Apply(s, a).done && q !in s.done ==>
                          a.Run? && PendingOf(s.threads[a.t]) == Some(q)
    ensures s.done <= Apply(s, a).done
    ensures a.Run? && s.threads[a.t].Load? ==>
              var pc, pc' := s.threads[a.t], Apply(s, a).threads[a.t];
              (pc'.Load? && pc'.pending == pc.pending) || pc.pending in Apply(s, a).done
  {
    if a.Run? && s.threads[a.t].Load? {
      assert ThreadOk(s, a.t);
      LoadFinishes(s, a.t);
    }
  }

  lemma LoadFinishes(s: State, t: nat)
    requires CanRun(s, t) && s.threads[t].Load? && LoaderOk(s, t)
    ensures LoadStep(s, t).done == s.done || LoadStep(s, t).done == s.done + {s.threads[t].pending}
    ensures LoadStep(s, t).done != s.done ==> !s.threads[t].stage.Returning?
    ensures var pc, pc' := s.threads[t], LoadStep(s, t).threads[t];
            (pc'.Load? && pc'.pending == pc.pending) || pc.pending in LoadStep(s, t).done
  {
    if IsSearch(s.threads[t].stage) { SearchFinishes(s, t); }
    else if IsInstall(s.threads[t].stage) { InstallFinishes(s, t); }
  }

  lemma SearchFinishes(s: State, t: nat)
    requires CanRun(s, t) && s.threads[t].Load? && IsSearch(s.threads[t].stage)
    ensures SearchStep(s, t).done == s.done || SearchStep(s, t).done == s.done + {s.threads[t].pending}
    ensures var pc, pc' := s.threads[t], SearchStep(s, t).threads[t];
            (pc'.Load? && pc'.pending == pc.pending) || pc.pending in SearchStep(s, t).done
  {
  }

  lemma InstallFinishes(s: State, t: nat)
    requires CanRun(s, t) && s.threads[t].Load? && IsInstall(s.threads[t].stage) && LoaderOk(s, t)
    ensures InstallStep(s, t).done == s.done || InstallStep(s, t).done == s.done + {s.threads[t].pending}
    ensures InstallStep(s, t).done != s.done ==> !s.threads[t].stage.Returning?
    ensures var pc, pc' := s.threads[t], InstallStep(s, t).threads[t];
            (pc'.Load? && pc'.pending == pc.pending) || pc.pending in InstallStep(s, t).done
  {
    match s.threads[t].stage
    case Reserved(_, _) =>
    case Cleaning(_, _) =>
    case Replacing(_, _, _) =>
    case RemovingOld(_, _) =>
    case Publishing(_) =>
    case Finishing(_) =>
    case _ =>
  }

  /** A pending in a table entry or a frame state is unfinished and has exactly one owner. */
  lemma ReachablePendingIsLive(s: State, q: Pending)
    requires Inv(s)
    requires (exists p :: p in s.table && !s.table[p].Ready? && s.table[p].pending == q)
             || (exists f :: 0 <= f < |s.frames| && s.frames[f].state == Evicting(q))
    ensures Live(s, q)
    ensures forall t :: 0 <= t < |s.threads| && PendingOf(s.threads[t]) == Some(q) ==> t == q.owner
  {
    if p :| p in s.table && !s.table[p].Ready? && s.table[p].pending == q { assert EntryOk(s, p); }
    else {
      var f :| 0 <= f < |s.frames| && s.frames[f].state == Evicting(q);
      assert FrameOk(s, f);
    }
    forall t | 0 <= t < |s.threads| && PendingOf(s.threads[t]) == Some(q) ensures t == q.owner {
      assert ThreadOk(s, t);
    }
  }
}
