/**
Every step of the concurrent pool keeps the invariant: one lemma per kind of step.

Each says what the step touches, proves the invariant of
the touched entities from the step's own definition, and leaves everything else to one of the
frame lemmas: a quiet step touches nothing that others depend on, a private one only what its
loader owns, and claiming, reserving and writing through a guard have a frame lemma each. The pin
accounting is proved on its own, and both are put together for whole runs.
*/
module PoolV3Safety {
  import opened Storage
  import opened PoolV3
  import opened PoolV3Invariant
  import opened PoolV3Steps
  import opened PoolV3Pins

  // ----- one lemma per kind of step -----

  lemma KeepLookup(s: State, t: nat)
    requires Core(s) && CanRun(s, t) && s.threads[t].Lookup?
    ensures Core(LookupStep(s, t))
  {
    var s' := LookupStep(s, t);
    var p := s.threads[t].page;
    if p in s.table { assert EntryOk(s, p); }
    KeepQuiet(s, s', t);
  }

  /** The stages of a loader that looks for a victim and holds none. */
  ghost predicate Searching(s: State, stage: LoadStage) {
    match stage
    case Choosing(_) => true
    case Looking(_, f) => f < |s.frames|
    case Reserving(_, f, _) => f < |s.frames|
    case Scanning(_) => true
    case AwaitingVictim(q) => Awaited(s, q)
    case GivingUp => true
    case _ => false
  }

  lemma KeepSearching(s: State, t: nat, stage: LoadStage, hand: nat)
    requires Core(s) && t < |s.threads| && s.threads[t].Load?
    requires Searching(s, s.threads[t].stage) && Searching(s, stage)
    ensures Core(GotoStage(s.(hand := hand), t, stage))
  {
    var s' := GotoStage(s.(hand := hand), t, stage);
    assert ThreadOk(s, t);
    SearchSelf(s, t, stage, hand);
    KeepQuiet(s, s', t);
  }

  lemma SearchSelf(s: State, t: nat, stage: LoadStage, hand: nat)
    requires t < |s.threads| && s.threads[t].Load? && LoaderOk(s, t)
    requires Searching(s, s.threads[t].stage) && Searching(s, stage)
    ensures ThreadOk(GotoStage(s.(hand := hand), t, stage), t)
  {
    var s' := GotoStage(s.(hand := hand), t, stage);
    if stage.AwaitingVictim? { assert Awaited(s', stage.on); }
  }

  lemma KeepChoosing(s: State, t: nat)
    requires Core(s) && CanRun(s, t) && s.threads[t].Load? && s.threads[t].stage.Choosing?
    ensures Core(TickStep(s, t))
  {
    var s' := TickStep(s, t);
    KeepSearching(s, t, s'.threads[t].stage, s'.hand);
  }

  lemma KeepLooking(s: State, t: nat)
    requires Core(s) && CanRun(s, t) && s.threads[t].Load? && s.threads[t].stage.Looking?
    ensures Core(SnapshotStep(s, t))
  {
    KeepSearching(s, t, SnapshotStep(s, t).threads[t].stage, s.hand);
  }

  lemma KeepScanning(s: State, t: nat)
    requires Core(s) && CanRun(s, t) && s.threads[t].Load? && s.threads[t].stage.Scanning?
    ensures Core(ScanStep(s, t))
  {
    var j := s.threads[t].stage.j;
    if j < |s.frames| { assert FrameOk(s, j); }
    KeepSearching(s, t, ScanStep(s, t).threads[t].stage, s.hand);
  }

  lemma KeepAwaitingVictim(s: State, t: nat)
    requires Core(s) && CanRun(s, t) && s.threads[t].Load? && s.threads[t].stage.AwaitingVictim?
    ensures Core(LoadStep(s, t))
  {
    assert ThreadOk(s, t);
    KeepSearching(s, t, Choosing(0), s.hand);
  }

  lemma KeepReserved(s: State, t: nat)
    requires Core(s) && CanRun(s, t) && s.threads[t].Load? && s.threads[t].stage.Reserved?
    ensures Core(LoadStep(s, t))
  {
    assert ThreadOk(s, t);
    KeepQuiet(s, LoadStep(s, t), t);
  }

  lemma KeepUnpinning(s: State, t: nat)
    requires Core(s) && CanRun(s, t) && s.threads[t].Load? && s.threads[t].stage.Unpinning?
    ensures Core(LoadStep(s, t))
  {
    assert ThreadOk(s, t);
    KeepQuiet(s, LoadStep(s, t), t);
  }

  lemma KeepReturning(s: State, t: nat)
    requires Core(s) && CanRun(s, t) && s.threads[t].Load? && s.threads[t].stage.Returning?
    ensures Core(ReturnStep(s, t))
  {
    assert ThreadOk(s, t);
    KeepQuiet(s, ReturnStep(s, t), t);
  }

  lemma KeepReserving(s: State, t: nat)
    requires Inv(s) && CanRun(s, t) && s.threads[t].Load? && s.threads[t].stage.Reserving?
    ensures Core(ReserveStep(s, t))
  {
    assert ThreadOk(s, t);
    var Reserving(k, f, snapshot) := s.threads[t].stage;
    if Reservable(s, f, snapshot) && !(k < |s.frames| && s.frames[f].referenced) {
      assert PinOk(s, f);
      PoolV3Steps.KeepReserve(s, t);
    } else {
      KeepQuiet(s, ReserveStep(s, t), t);
    }
  }

  /** The parts of the invariant that concern what the loader `t` owns. */
  lemma Mine(s: State, t: nat)
    requires Core(s) && t < |s.threads| && s.threads[t].Load?
    ensures LoaderOk(s, t)
    ensures HoldOf(s.threads[t]).Some? ==> FrameOk(s, HoldOf(s.threads[t]).value)
    ensures ClaimOf(s.threads[t]).Some? && s.threads[t].page in s.history ==> PageOk(s, s.threads[t].page)
    ensures PriorOf(s.threads[t]).Some? && PriorOf(s.threads[t]).value in s.history ==>
              PageOk(s, PriorOf(s.threads[t]).value)
  {
    assert ThreadOk(s, t);
  }

  lemma KeepGivingUp(s: State, t: nat)
    requires Core(s) && CanRun(s, t) && s.threads[t].Load? && s.threads[t].stage.GivingUp?
    ensures Core(LoadStep(s, t))
  {
    Mine(s, t);
    KeepPrivate(s, LoadStep(s, t), t);
  }

  lemma KeepGivenUp(s: State, t: nat)
    requires Core(s) && CanRun(s, t) && s.threads[t].Load? && s.threads[t].stage.GivenUp?
    ensures Core(LoadStep(s, t))
  {
    Mine(s, t);
    KeepPrivate(s, LoadStep(s, t), t);
  }

  lemma KeepCleaning(s: State, t: nat)
    requires Core(s) && CanRun(s, t) && s.threads[t].Load? && s.threads[t].stage.Cleaning?
    ensures Core(LoadStep(s, t))
  {
    Mine(s, t);
    KeepPrivate(s, LoadStep(s, t), t);
  }

  lemma KeepReplacing(s: State, t: nat)
    requires Core(s) && CanRun(s, t) && s.threads[t].Load? && s.threads[t].stage.Replacing?
    ensures Core(ReplaceStep(s, t))
  {
    Mine(s, t);
    KeepPrivate(s, ReplaceStep(s, t), t);
  }

  lemma KeepRemovingOld(s: State, t: nat)
    requires Core(s) && CanRun(s, t) && s.threads[t].Load? && s.threads[t].stage.RemovingOld?
    ensures Core(RemoveOldStep(s, t))
  {
    Mine(s, t);
    KeepPrivate(s, RemoveOldStep(s, t), t);
  }

  lemma KeepPublishing(s: State, t: nat)
    requires Core(s) && CanRun(s, t) && s.threads[t].Load? && s.threads[t].stage.Publishing?
    ensures Core(PublishStep(s, t))
  {
    Mine(s, t);
    KeepPrivate(s, PublishStep(s, t), t);
  }

  lemma KeepFinishing(s: State, t: nat)
    requires Core(s) && CanRun(s, t) && s.threads[t].Load? && s.threads[t].stage.Finishing?
    ensures Core(LoadStep(s, t))
  {
    Mine(s, t);
    KeepPrivate(s, LoadStep(s, t), t);
  }

  lemma KeepRestoring(s: State, t: nat)
    requires Core(s) && CanRun(s, t) && s.threads[t].Load? && s.threads[t].stage.Restoring?
    ensures Core(RestoreStep(s, t))
  {
    Mine(s, t);
    RestoreSelf(s, t);
    KeepPrivate(s, RestoreStep(s, t), t);
  }

  lemma RestoreSelf(s: State, t: nat)
    requires CanRun(s, t) && s.threads[t].Load? && s.threads[t].stage.Restoring? && LoaderOk(s, t)
    ensures ThreadOk(RestoreStep(s, t), t) && FrameOk(RestoreStep(s, t), s.threads[t].stage.f)
  {
  }

  lemma KeepUnclaiming(s: State, t: nat)
    requires Core(s) && CanRun(s, t) && s.threads[t].Load? && s.threads[t].stage.Unclaiming?
    ensures Core(LoadStep(s, t))
  {
    Mine(s, t);
    KeepPrivate(s, LoadStep(s, t), t);
  }

  lemma KeepRolledBack(s: State, t: nat)
    requires Core(s) && CanRun(s, t) && s.threads[t].Load? && s.threads[t].stage.RolledBack?
    ensures Core(LoadStep(s, t))
  {
    Mine(s, t);
    KeepPrivate(s, LoadStep(s, t), t);
  }

  // ----- store calls -----

  lemma KeepReading(s: State, t: nat, ok: bool)
    requires Core(s) && Enabled(s, StoreRead(t, ok))
    ensures Core(StoreReadStep(s, t, ok))
  {
    Mine(s, t);
    ReadSelf(s, t, ok);
    KeepQuiet(s, StoreReadStep(s, t, ok), t);
  }

  lemma ReadSelf(s: State, t: nat, ok: bool)
    requires Enabled(s, StoreRead(t, ok)) && LoaderOk(s, t)
    requires s.history.Keys == s.store.Keys
    requires s.threads[t].page in s.history ==> PageOk(s, s.threads[t].page)
    ensures ThreadOk(StoreReadStep(s, t, ok), t)
  {
  }

  lemma KeepWriteBack(s: State, t: nat, outcome: WriteOutcome)
    requires Core(s) && Enabled(s, StoreWrite(t, outcome)) && s.threads[t].Load?
    ensures Core(StoreWriteStep(s, t, outcome))
  {
    Mine(s, t);
    WriteBackSelf(s, t, outcome);
    WriteBackIsPrivate(s, t, outcome);
    KeepPrivate(s, StoreWriteStep(s, t, outcome), t);
  }

  lemma WriteBackIsPrivate(s: State, t: nat, outcome: WriteOutcome)
    requires Enabled(s, StoreWrite(t, outcome)) && s.threads[t].Load? && LoaderOk(s, t)
    ensures var s' := StoreWriteStep(s, t, outcome); Private(s, s', t) && StillOwner(s, s', t)
  {
  }

  lemma WriteBackSelf(s: State, t: nat, outcome: WriteOutcome)
    requires Enabled(s, StoreWrite(t, outcome)) && s.threads[t].Load? && LoaderOk(s, t)
    ensures ThreadOk(StoreWriteStep(s, t, outcome), t)
  {
  }

  lemma KeepFlushWrite(s: State, t: nat, outcome: WriteOutcome)
    requires Core(s) && Enabled(s, StoreWrite(t, outcome)) && s.threads[t].Flush?
    requires TearSafe(s, StoreWrite(t, outcome))
    ensures Core(StoreWriteStep(s, t, outcome))
  {
    var s' := StoreWriteStep(s, t, outcome);
    var Flush(_, i, phase) := s.threads[t];
    assert ThreadOk(s, t);
    assert FrameOk(s, i);
    assert PageOk(s, phase.page);
    forall u | 0 <= u < |s.threads| && u != t && s.threads[u].Flush? && s.threads[u].phase == Wrote(phase.page)
      ensures Stored(s', phase.page)
    {
      WroteWhere(s, u, i);
    }
    FlushWriteKeepsGuards(s, t, outcome);
    KeepResident(s, s', t, i, phase.page);
  }

  lemma FlushWriteKeepsGuards(s: State, t: nat, outcome: WriteOutcome)
    requires Core(s) && Enabled(s, StoreWrite(t, outcome)) && s.threads[t].Flush?
    ensures forall g :: g in s.guards ==> GuardOk(StoreWriteStep(s, t, outcome), g)
  {
    forall g | g in s.guards ensures GuardOk(StoreWriteStep(s, t, outcome), g) {
      assert GuardOk(s, g);
      if s.guards[g].writing { LocksShrink(s, StoreWriteStep(s, t, outcome), s.guards[g].frame); }
    }
  }

  // ----- flushing -----

  lemma KeepVisiting(s: State, t: nat)
    requires Core(s) && CanRun(s, t) && s.threads[t].Flush? && s.threads[t].phase.Visiting?
    ensures Core(VisitStep(s, t))
  {
    var i := s.threads[t].i;
    if i < |s.frames| {
      assert FrameOk(s, i);
      if s.frames[i].state.Evicting? { VictimHolderIsCommitted(s, s.frames[i].state.pending); }
    }
    KeepQuiet(s, VisitStep(s, t), t);
  }

  /** A flusher that keeps its pin, or gains none, moves on to another phase at the same frame. */
  lemma KeepPhase(s: State, t: nat, phase: FlushStage)
    requires Core(s) && t < |s.threads| && s.threads[t].Flush?
    requires ThreadOk(GotoPhase(s, t, phase), t)
    requires phase.Locked? || phase.Wrote? ==> !Writing(s, s.threads[t].i)
    ensures Core(GotoPhase(s, t, phase))
  {
    KeepQuiet(s, GotoPhase(s, t, phase), t);
  }

  lemma KeepFlushing(s: State, t: nat)
    requires Core(s) && CanRun(s, t) && s.threads[t].Flush?
    requires s.threads[t].phase.Awaiting? || s.threads[t].phase.Pinned? || s.threads[t].phase.Locking?
    ensures Core(FlushStep(s, t))
  {
    assert ThreadOk(s, t);
    FlushSelf(s, t);
    KeepPhase(s, t, FlushStep(s, t).threads[t].phase);
  }

  lemma FlushSelf(s: State, t: nat)
    requires CanRun(s, t) && s.threads[t].Flush? && FlusherOk(s, t)
    requires s.threads[t].phase.Awaiting? || s.threads[t].phase.Pinned? || s.threads[t].phase.Locking?
    ensures ThreadOk(FlushStep(s, t), t)
  {
  }

  lemma KeepReleasing(s: State, t: nat)
    requires Core(s) && CanRun(s, t) && s.threads[t].Flush?
    requires s.threads[t].phase.Releasing? || s.threads[t].phase.Aborting?
    ensures Core(FlushStep(s, t))
  {
    assert ThreadOk(s, t);
    KeepQuiet(s, FlushStep(s, t), t);
  }

  lemma VictimHolderIsCommitted(s: State, q: Pending)
    requires Live(s, q) && HoldOf(s.threads[q.owner]).Some?
    ensures Awaited(s, q)
  {
  }

  lemma KeepWrote(s: State, t: nat)
    requires Core(s) && CanRun(s, t) && s.threads[t].Flush? && s.threads[t].phase.Wrote?
    ensures Core(FlushStep(s, t))
  {
    var s' := FlushStep(s, t);
    var Flush(_, i, phase) := s.threads[t];
    assert ThreadOk(s, t);
    assert FrameOk(s, i);
    assert PageOk(s, phase.page);
    forall g | g in s'.guards ensures GuardOk(s', g) {
      assert GuardOk(s, g);
      assert LocksData(s.threads[t], i);
      if s.guards[g].writing { LocksShrink(s, s', s.guards[g].frame); }
    }
    KeepResident(s, s', t, i, phase.page);
  }

  // ----- guards -----

  lemma KeepBeginWrite(s: State, g: nat)
    requires Core(s) && Enabled(s, BeginWrite(g))
    ensures Core(Apply(s, BeginWrite(g)))
  {
    var s' := Apply(s, BeginWrite(g));
    var Guard(p, f, _) := s.guards[g];
    assert GuardOk(s, g);
    assert FrameOk(s, f);
    assert PageOk(s, p);
    forall h | h in s'.guards ensures GuardOk(s', h) {
      assert GuardOk(s, h);
      if s'.guards[h].writing { LocksShrink(s, s', s.guards[h].frame); }
    }
    NoWroteUnlocked(s, f, p);
    KeepResident(s, s', |s.threads|, f, p);
  }

  /** A flush that has written page `x` is at the frame where `x` lives, and locks its data. */
  lemma WroteWhere(s: State, u: nat, f: nat)
    requires Core(s) && u < |s.threads| && s.threads[u].Flush? && s.threads[u].phase.Wrote?
    requires f < |s.frames| && s.frames[f].state == Valid(s.threads[u].phase.page)
    ensures s.threads[u].i == f && LocksData(s.threads[u], f) && Stored(s, s.threads[u].phase.page)
  {
    assert ThreadOk(s, u);
    assert FrameOk(s, f);
    assert FrameOk(s, s.threads[u].i);
  }

  lemma NoWroteUnlocked(s: State, f: nat, p: PageId)
    requires Core(s) && f < |s.frames| && s.frames[f].state == Valid(p) && !ReadLocked(s, f)
    ensures forall u :: 0 <= u < |s.threads| && s.threads[u].Flush? ==> s.threads[u].phase != Wrote(p)
  {
    forall u | 0 <= u < |s.threads| && s.threads[u].Flush? ensures s.threads[u].phase != Wrote(p) {
      assert !LocksData(s.threads[u], f);
      if s.threads[u].phase == Wrote(p) { WroteWhere(s, u, f); }
    }
  }

  lemma KeepEndWrite(s: State, g: nat, bytes: Bytes)
    requires Core(s) && Enabled(s, EndWrite(g, bytes))
    ensures Core(Apply(s, EndWrite(g, bytes)))
  {
    var s' := Apply(s, EndWrite(g, bytes));
    var Guard(p, f, _) := s.guards[g];
    assert GuardOk(s, g);
    assert FrameOk(s, f);
    assert PageOk(s, p);
    NoWroteUnlocked(s, f, p);
    forall h | h in s'.guards ensures GuardOk(s', h) {
      assert GuardOk(s, h);
      if s'.guards[h].writing { LocksShrink(s, s', s.guards[h].frame); }
    }
    KeepResident(s, s', |s.threads|, f, p);
  }

  lemma KeepDropGuard(s: State, g: nat)
    requires Core(s) && Enabled(s, DropGuard(g))
    ensures Core(Apply(s, DropGuard(g)))
  {
    KeepQuiet(s, Apply(s, DropGuard(g)), |s.threads|);
  }
  // ----- the invariant holds in every reachable state -----

  lemma KeepLoad(s: State, t: nat)
    requires Inv(s) && CanRun(s, t) && s.threads[t].Load?
    ensures Core(LoadStep(s, t))
  {
    match s.threads[t].stage
    case Choosing(_) => KeepChoosing(s, t);
    case Looking(_, _) => KeepLooking(s, t);
    case Reserving(_, _, _) => KeepReserving(s, t);
    case Scanning(_) => KeepScanning(s, t);
    case AwaitingVictim(_) => KeepAwaitingVictim(s, t);
    case GivingUp => KeepGivingUp(s, t);
    case GivenUp => KeepGivenUp(s, t);
    case Reserved(_, _) => KeepReserved(s, t);
    case Cleaning(_, _) => KeepCleaning(s, t);
    case Replacing(_, _, _) => KeepReplacing(s, t);
    case RemovingOld(_, _) => KeepRemovingOld(s, t);
    case Publishing(_) => KeepPublishing(s, t);
    case Finishing(_) => KeepFinishing(s, t);
    case Returning(_) => KeepReturning(s, t);
    case Restoring(_, _) => KeepRestoring(s, t);
    case Unpinning(_) => KeepUnpinning(s, t);
    case Unclaiming => KeepUnclaiming(s, t);
    case RolledBack => KeepRolledBack(s, t);
    case _ =>
  }

  lemma KeepFlush(s: State, t: nat)
    requires Inv(s) && CanRun(s, t) && s.threads[t].Flush?
    ensures Core(FlushStep(s, t))
  {
    match s.threads[t].phase
    case Visiting => KeepVisiting(s, t);
    case Wrote(_) => KeepWrote(s, t);
    case Releasing(_) => KeepReleasing(s, t);
    case Aborting(_) => KeepReleasing(s, t);
    case _ => KeepFlushing(s, t);
  }

  lemma KeepRun(s: State, t: nat)
    requires Inv(s) && CanRun(s, t)
    ensures Core(RunStep(s, t))
  {
    match s.threads[t]
    case Lookup(_, _) => KeepLookup(s, t);
    case Waiting(_, _, _) => KeepQuiet(s, RunStep(s, t), t);
    case Claiming(_, _) =>
      if s.threads[t].page in s.table { KeepQuiet(s, ClaimStep(s, t), t); } else { KeepClaim(s, t); }
    case Load(_, _, _, _) => KeepLoad(s, t);
    case Flush(_, _, _) => KeepFlush(s, t);
  }
}
