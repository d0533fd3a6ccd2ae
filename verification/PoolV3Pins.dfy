/**
Every step of the concurrent pool keeps the pin accounting.

A frame's pin count is the number of threads and guards whose program counter or handle names
the frame as pinned. Two lemmas cover all steps: a thread step that hands out no guard moves a
pin count exactly when it moves the thread's own pin, and a step that hands out a guard either
adds a pin together with the guard or turns the thread's pin into the guard's. Dropping a guard
takes both away, and everything else leaves pins and handles alone. What remains for each kind
of step is to see which frame its program counter names before and after.
*/
module PoolV3Pins {
  import opened Storage
  import opened PoolV3
  import opened PoolV3Invariant

  ghost predicate Pins(s: State) {
    forall f :: 0 <= f < |s.frames| ==> PinOk(s, f)
  }

  lemma FreshGuard(s: State)
    requires Core(s)
    ensures s.serial !in s.guards
  {
    forall g | g in s.guards ensures g != s.serial { assert GuardOk(s, g); }
  }

  /** A thread hands out guard `s.serial` on frame `i`, which gains a pin unless the thread's own pin moves over. */
  lemma PinsNewGuard(s: State, s': State, t: nat, page: PageId, i: nat)
    requires Inv(s) && t < |s.threads| && t < |s'.threads| && |s'.frames| == |s.frames|
    requires s'.threads == s.threads[t := s'.threads[t]] && PinOf(s'.threads[t]) == None
    requires s'.guards == s.guards[s.serial := Guard(page, i, false)]
    requires PinOf(s.threads[t]) == None || PinOf(s.threads[t]) == Some(i)
    requires forall f :: 0 <= f < |s.frames| ==>
               s'.frames[f].pin == s.frames[f].pin + (if f == i && PinOf(s.threads[t]) == None then 1 else 0)
    ensures Pins(s')
  {
    FreshGuard(s);
    forall f | 0 <= f < |s'.frames| ensures PinOk(s', f) {
      assert PinOk(s, f);
      ThreadPinsAfter(s.threads, t, s'.threads[t], f);
      GuardPinsAdd(s.guards, s.serial, Guard(page, i, false), f);
    }
  }

  lemma PinsLookup(s: State, t: nat)
    requires Inv(s) && CanRun(s, t) && s.threads[t].Lookup?
    ensures Pins(LookupStep(s, t))
  {
    var p := s.threads[t].page;
    if p in s.table && s.table[p].Ready? { PinsNewGuard(s, LookupStep(s, t), t, p, s.table[p].index); }
    else { PinsThread(s, LookupStep(s, t), t); }
  }

  lemma PinsReturning(s: State, t: nat)
    requires Inv(s) && CanRun(s, t) && s.threads[t].Load? && s.threads[t].stage.Returning?
    ensures Pins(ReturnStep(s, t))
  {
    PinsNewGuard(s, ReturnStep(s, t), t, s.threads[t].page, s.threads[t].stage.f);
  }

  /** A thread step that hands out no guard moves a pin count exactly when it moves the thread's own pin. */
  lemma PinsThread(s: State, s': State, t: nat)
    requires Pins(s) && t < |s.threads| && t < |s'.threads| && |s'.frames| == |s.frames|
    requires s'.threads == s.threads[t := s'.threads[t]] && s'.guards == s.guards
    requires forall f :: 0 <= f < |s.frames| ==>
               s'.frames[f].pin == s.frames[f].pin - (if PinOf(s.threads[t]) == Some(f) then 1 else 0)
                                                   + (if PinOf(s'.threads[t]) == Some(f) then 1 else 0)
    ensures Pins(s')
  {
    forall f | 0 <= f < |s'.frames| ensures PinOk(s', f) {
      assert PinOk(s, f);
      ThreadPinsAfter(s.threads, t, s'.threads[t], f);
    }
  }

  lemma PinsTick(s: State, t: nat)
    requires Inv(s) && CanRun(s, t) && s.threads[t].Load? && s.threads[t].stage.Choosing?
    ensures Pins(TickStep(s, t))
  {
    PinsThread(s, TickStep(s, t), t);
  }

  lemma PinsSnapshot(s: State, t: nat)
    requires Inv(s) && CanRun(s, t) && s.threads[t].Load? && s.threads[t].stage.Looking?
    ensures Pins(SnapshotStep(s, t))
  {
    PinsThread(s, SnapshotStep(s, t), t);
  }

  lemma PinsReserve(s: State, t: nat)
    requires Inv(s) && CanRun(s, t) && s.threads[t].Load? && s.threads[t].stage.Reserving?
    ensures Pins(ReserveStep(s, t))
  {
    PinsThread(s, ReserveStep(s, t), t);
  }

  lemma PinsScan(s: State, t: nat)
    requires Inv(s) && CanRun(s, t) && s.threads[t].Load? && s.threads[t].stage.Scanning?
    ensures Pins(ScanStep(s, t))
  {
    PinsThread(s, ScanStep(s, t), t);
  }

  lemma PinsReplace(s: State, t: nat)
    requires Inv(s) && CanRun(s, t) && s.threads[t].Load? && s.threads[t].stage.Replacing?
    ensures Pins(ReplaceStep(s, t))
  {
    PinsThread(s, ReplaceStep(s, t), t);
  }

  lemma PinsPublish(s: State, t: nat)
    requires Inv(s) && CanRun(s, t) && s.threads[t].Load? && s.threads[t].stage.Publishing?
    ensures Pins(PublishStep(s, t))
  {
    PinsThread(s, PublishStep(s, t), t);
  }

  lemma PinsRestore(s: State, t: nat)
    requires Inv(s) && CanRun(s, t) && s.threads[t].Load? && s.threads[t].stage.Restoring?
    ensures Pins(RestoreStep(s, t))
  {
    PinsThread(s, RestoreStep(s, t), t);
  }

  lemma PinsUnpin(s: State, t: nat)
    requires Inv(s) && CanRun(s, t) && s.threads[t].Load? && s.threads[t].stage.Unpinning?
    ensures Pins(LoadStep(s, t))
  {
    PinsThread(s, LoadStep(s, t), t);
  }

  lemma PinsLoad(s: State, t: nat)
    requires Inv(s) && CanRun(s, t) && s.threads[t].Load?
    ensures Pins(LoadStep(s, t))
  {
    match s.threads[t].stage
    case Returning(_) => PinsReturning(s, t);
    case Choosing(_) => PinsTick(s, t);
    case Looking(_, _) => PinsSnapshot(s, t);
    case Reserving(_, _, _) => PinsReserve(s, t);
    case Scanning(_) => PinsScan(s, t);
    case Replacing(_, _, _) => PinsReplace(s, t);
    case Publishing(_) => PinsPublish(s, t);
    case Restoring(_, _) => PinsRestore(s, t);
    case Unpinning(_) => PinsUnpin(s, t);
    case _ => PinsLoadRest(s, t);
  }

  lemma PinsLoadRest(s: State, t: nat)
    requires Inv(s) && CanRun(s, t) && s.threads[t].Load?
    requires var stage := s.threads[t].stage;
             stage.AwaitingVictim? || stage.GivingUp? || stage.GivenUp? || stage.Reserved? || stage.Cleaning?
             || stage.RemovingOld? || stage.Finishing? || stage.Unclaiming? || stage.RolledBack?
             || stage.WritingBack? || stage.Reading?
    ensures Pins(LoadStep(s, t))
  {
    PinsThread(s, LoadStep(s, t), t);
  }

  lemma PinsVisit(s: State, t: nat)
    requires Inv(s) && CanRun(s, t) && s.threads[t].Flush? && s.threads[t].phase.Visiting?
    ensures Pins(VisitStep(s, t))
  {
    PinsThread(s, VisitStep(s, t), t);
  }

  lemma PinsRelease(s: State, t: nat)
    requires Inv(s) && CanRun(s, t) && s.threads[t].Flush?
    requires s.threads[t].phase.Releasing? || s.threads[t].phase.Aborting?
    ensures Pins(FlushStep(s, t))
  {
    PinsThread(s, FlushStep(s, t), t);
  }

  lemma PinsPhase(s: State, t: nat)
    requires Inv(s) && CanRun(s, t) && s.threads[t].Flush?
    requires s.threads[t].phase.Awaiting? || s.threads[t].phase.Pinned? || s.threads[t].phase.Locking?
    ensures Pins(FlushStep(s, t))
  {
    PinsThread(s, FlushStep(s, t), t);
  }

  lemma PinsFlush(s: State, t: nat)
    requires Inv(s) && CanRun(s, t) && s.threads[t].Flush?
    ensures Pins(FlushStep(s, t))
  {
    match s.threads[t].phase
    case Visiting => PinsVisit(s, t);
    case Releasing(_) => PinsRelease(s, t);
    case Aborting(_) => PinsRelease(s, t);
    case Wrote(_) => PinsThread(s, FlushStep(s, t), t);
    case _ => PinsPhase(s, t);
  }

  lemma PinsGuard(s: State, a: Action)
    requires Inv(s) && Enabled(s, a) && (a.BeginWrite? || a.EndWrite? || a.DropGuard?)
    ensures Pins(Apply(s, a))
  {
    var s' := Apply(s, a);
    forall f | 0 <= f < |s'.frames| ensures PinOk(s', f) {
      assert PinOk(s, f);
      if a.DropGuard? { GuardPinsDrop(s.guards, a.g, f); }
      else { GuardPinsKeep(s.guards, a.g, a.BeginWrite?, f); }
    }
  }

  lemma PinsWrite(s: State, t: nat, outcome: WriteOutcome)
    requires Inv(s) && Enabled(s, StoreWrite(t, outcome))
    ensures Pins(StoreWriteStep(s, t, outcome))
  {
    PinsThread(s, StoreWriteStep(s, t, outcome), t);
  }

  lemma PinsRun(s: State, t: nat)
    requires Inv(s) && CanRun(s, t)
    ensures Pins(RunStep(s, t))
  {
    match s.threads[t]
    case Lookup(_, _) => PinsLookup(s, t);
    case Load(_, _, _, _) => PinsLoad(s, t);
    case Flush(_, _, _) => PinsFlush(s, t);
    case Waiting(_, _, _) => PinsThread(s, RunStep(s, t), t);
    case Claiming(_, _) => PinsThread(s, RunStep(s, t), t);
    case Idle(_) =>
  }

  lemma KeepPins(s: State, a: Action)
    requires Inv(s) && Enabled(s, a)
    ensures Pins(Apply(s, a))
  {
    match a
    case Run(t) => PinsRun(s, t);
    case StartFetch(t, _, _) => PinsThread(s, Apply(s, a), t);
    case StartFlush(t) => PinsThread(s, Apply(s, a), t);
    case StoreWrite(t, outcome) => PinsWrite(s, t, outcome);
    case StoreRead(t, ok) => PinsThread(s, StoreReadStep(s, t, ok), t);
    case _ => PinsGuard(s, a);
  }
}
