/** Every run of the concurrent pool keeps its invariant. */
module PoolV3Runs {
  // First step by step and along whole runs without a harmful torn write, then for the two ways to rule such a
  // write out: a store whose failed writes change nothing, and flushes that do not overlap.

  import opened Storage
  import opened PoolV3
  import opened PoolV3Invariant
  import opened PoolV3Safety
  import opened PoolV3Pins
  import opened PoolV3Steps

  lemma KeepStep(s: State, a: Action)
    requires Inv(s) && Enabled(s, a) && TearSafe(s, a)
    ensures Inv(Apply(s, a))
  {
    KeepPins(s, a);
    match a
    case Run(t) => KeepRun(s, t);
    case StartFetch(t, _, _) => KeepQuiet(s, Apply(s, a), t);
    case StartFlush(t) => KeepQuiet(s, Apply(s, a), t);
    case StoreWrite(t, outcome) =>
      if s.threads[t].Load? { KeepWriteBack(s, t, outcome); } else { KeepFlushWrite(s, t, outcome); }
    case StoreRead(t, ok) => KeepReading(s, t, ok);
    case BeginWrite(g) => KeepBeginWrite(s, g);
    case EndWrite(g, bytes) => KeepEndWrite(s, g, bytes);
    case DropGuard(g) => KeepDropGuard(s, g);
  }

  lemma InitInv(s: State)
    requires Init(s)
    ensures Inv(s)
  {
    forall f | 0 <= f < |s.frames| ensures PinOk(s, f) {
      assert ThreadPins(s.threads, f) == {};
      assert GuardPins(s.guards, f) == {};
    }
  }

  /** A run in which no store write tears a page behind another flush's back. */
  ghost predicate SafelyLeads(s: State, actions: seq<Action>, last: State)
    decreases |actions|
  {
    if actions == [] then s == last
    else && Enabled(s, actions[0]) && TearSafe(s, actions[0])
         && SafelyLeads(Apply(s, actions[0]), actions[1..], last)
  }

  lemma {:induction false} InvAlong(s: State, actions: seq<Action>, last: State)
    requires Inv(s) && SafelyLeads(s, actions, last)
    ensures Inv(last)
    decreases |actions|
  {
    if actions != [] {
      KeepStep(s, actions[0]);
      InvAlong(Apply(s, actions[0]), actions[1..], last);
    }
  }

  /** Main safety result: every state of every run whose torn writes are safe satisfies the invariant. */
  lemma Reachable(s: State, actions: seq<Action>, last: State)
    requires Init(s) && SafelyLeads(s, actions, last)
    ensures Inv(last)
  {
    InitInv(s);
    InvAlong(s, actions, last);
  }

  /** The thread starts no operation during the run. */
  ghost predicate StartsNothing(actions: seq<Action>, t: nat) {
    forall k :: 0 <= k < |actions| ==> actions[k].StartFetch? || actions[k].StartFlush? ==> actions[k].t != t
  }

  // ----- two ways to make every run safe: an atomic store, or one flush at a time -----

  /** A failed write leaves the store as it was. */
  ghost predicate AtomicStore(actions: seq<Action>) {
    forall k :: 0 <= k < |actions| && actions[k].StoreWrite? ==> !actions[k].outcome.Torn?
  }

  lemma {:induction false} AtomicStoreIsSafe(s: State, actions: seq<Action>, last: State)
    requires Leads(s, actions, last) && AtomicStore(actions)
    ensures SafelyLeads(s, actions, last)
    decreases |actions|
  {
    if actions != [] {
      assert !(actions[0].StoreWrite? && actions[0].outcome.Torn?);
      AtomicStoreIsSafe(Apply(s, actions[0]), actions[1..], last);
    }
  }

  ghost predicate OneFlusher(s: State) {
    forall t, u :: 0 <= t < |s.threads| && 0 <= u < |s.threads| && s.threads[t].Flush? && s.threads[u].Flush?
                   ==> t == u
  }

  /** A run during which no two flushes overlap. */
  ghost predicate SerialLeads(s: State, actions: seq<Action>, last: State)
    decreases |actions|
  {
    && OneFlusher(s)
    && if actions == [] then s == last
       else Enabled(s, actions[0]) && SerialLeads(Apply(s, actions[0]), actions[1..], last)
  }

  /** A flush that found its frame dirty still finds it dirty when it gets to write. */
  ghost predicate StillDirty(s: State) {
    forall t :: 0 <= t < |s.threads| ==> StillDirtyAt(s, t)
  }

  /** Only the loader that holds a frame, or a flush that has written it, marks the frame clean. */
  lemma WhoCleans(s: State, a: Action, f: nat)
    requires Enabled(s, a) && f < |s.frames| && s.frames[f].dirty
    ensures |Apply(s, a).frames| == |s.frames|
    ensures Apply(s, a).frames[f].dirty
            || (a.Run? && (HoldOf(s.threads[a.t]) == Some(f)
                           || (s.threads[a.t].Flush? && s.threads[a.t].i == f && s.threads[a.t].phase.Wrote?)))
  {
    if a.Run? && s.threads[a.t].Load? { LoaderCleans(s, a.t, f); }
    else if a.Run? && s.threads[a.t].Flush? { FlusherCleans(s, a.t, f); }
  }

  lemma LoaderCleans(s: State, t: nat, f: nat)
    requires CanRun(s, t) && s.threads[t].Load? && f < |s.frames| && s.frames[f].dirty
    ensures LoadStep(s, t).frames[f].dirty || HoldOf(s.threads[t]) == Some(f)
  {
    if IsSearch(s.threads[t].stage) { SearchCleansNothing(s, t, f); }
    else if IsInstall(s.threads[t].stage) { InstallCleans(s, t, f); }
  }

  lemma SearchCleansNothing(s: State, t: nat, f: nat)
    requires CanRun(s, t) && s.threads[t].Load? && IsSearch(s.threads[t].stage)
    requires f < |s.frames| && s.frames[f].dirty
    ensures SearchStep(s, t).frames[f].dirty
  {
    if TouchOf(s.threads[t]) == Some(f) { assert s.threads[t].stage.Reserving? || s.threads[t].stage.Looking?; }
  }

  lemma InstallCleans(s: State, t: nat, f: nat)
    requires CanRun(s, t) && s.threads[t].Load? && IsInstall(s.threads[t].stage)
    requires f < |s.frames| && s.frames[f].dirty
    ensures InstallStep(s, t).frames[f].dirty || HoldOf(s.threads[t]) == Some(f)
  {
  }

  lemma FlusherCleans(s: State, t: nat, f: nat)
    requires CanRun(s, t) && s.threads[t].Flush? && f < |s.frames| && s.frames[f].dirty
    ensures FlushStep(s, t).frames[f].dirty || (s.threads[t].i == f && s.threads[t].phase.Wrote?)
  {
  }

  /** A thread is only ever moved by its own actions. */
  lemma OthersStay(s: State, a: Action, u: nat)
    requires Enabled(s, a) && u < |s.threads|
    ensures |Apply(s, a).threads| == |s.threads|
    ensures (a.BeginWrite? || a.EndWrite? || a.DropGuard? || a.t != u) ==> Apply(s, a).threads[u] == s.threads[u]
  {
  }

  lemma KeepStillDirty(s: State, a: Action)
    requires Inv(s) && Enabled(s, a) && StillDirty(s) && OneFlusher(s)
    ensures StillDirty(Apply(s, a))
  {
    var s' := Apply(s, a);
    forall t | 0 <= t < |s.threads| ensures |s'.threads| == |s.threads| && StillDirtyAt(s', t) {
      OthersStay(s, a, t);
      assert ThreadOk(s, t);
      assert StillDirtyAt(s, t);
      if a.Run? && a.t == t { OwnStillDirty(s, t); }
      else if s.threads[t].Flush? && (s.threads[t].phase.Locking? || s.threads[t].phase.Locked?) {
        if a.Run? { assert ThreadOk(s, a.t); }
        WhoCleans(s, a, s.threads[t].i);
      }
    }
  }

  ghost predicate StillDirtyAt(s: State, t: nat) {
    t < |s.threads| && s.threads[t].Flush? && (s.threads[t].phase.Locking? || s.threads[t].phase.Locked?)
    ==> s.threads[t].i < |s.frames| && s.frames[s.threads[t].i].dirty
  }

  lemma OwnStillDirty(s: State, t: nat)
    requires CanRun(s, t) && StillDirty(s)
    ensures StillDirtyAt(RunStep(s, t), t)
  {
    assert StillDirtyAt(s, t);
    if s.threads[t].Flush? { FlushStillDirty(s, t); }
  }

  lemma FlushStillDirty(s: State, t: nat)
    requires CanRun(s, t) && s.threads[t].Flush? && StillDirtyAt(s, t)
    ensures StillDirtyAt(FlushStep(s, t), t)
  {
  }

  lemma SerialTear(s: State, a: Action)
    requires Inv(s) && Enabled(s, a) && StillDirty(s) && OneFlusher(s)
    ensures TearSafe(s, a)
  {
    if a.StoreWrite? { assert StillDirtyAt(s, a.t); }
  }

  lemma {:induction false} SerialFlushIsSafe(s: State, actions: seq<Action>, last: State)
    requires Inv(s) && StillDirty(s) && SerialLeads(s, actions, last)
    ensures SafelyLeads(s, actions, last)
    decreases |actions|
  {
    if actions != [] {
      SerialTear(s, actions[0]);
      KeepStep(s, actions[0]);
      KeepStillDirty(s, actions[0]);
      SerialFlushIsSafe(Apply(s, actions[0]), actions[1..], last);
    }
  }

  /**
  From an empty pool, every run over a store whose failed writes change nothing, and every run
  over any store in which flushes do not overlap, keeps the invariant.
  */
  lemma RunsKeepInvariant(s: State, actions: seq<Action>, last: State)
    requires Init(s)
    requires (Leads(s, actions, last) && AtomicStore(actions)) || SerialLeads(s, actions, last)
    ensures Inv(last)
  {
    InitInv(s);
    if Leads(s, actions, last) && AtomicStore(actions) { AtomicStoreIsSafe(s, actions, last); }
    else { SerialFlushIsSafe(s, actions, last); }
    InvAlong(s, actions, last);
  }
}
