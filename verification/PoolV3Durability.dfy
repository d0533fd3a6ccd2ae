/** Durability of flush_all in the concurrent pool. */
module PoolV3Durability {
  // When it returns Ok, every guard write that had finished when it started is in the store, or a later version of
  // the page is.

  import opened Storage
  import opened PoolV3
  import opened PoolV3Invariant
  import opened PoolV3Runs

  // ----- versions in the store only grow -----

  lemma StoreGrows(s: State, a: Action, p: PageId)
    requires Inv(s) && Enabled(s, a) && p in s.store
    ensures p in Apply(s, a).store && Apply(s, a).store[p].image.version >= s.store[p].image.version
    ensures !a.StoreWrite? ==> Apply(s, a).store == s.store
  {
    match a
    case StoreWrite(t, outcome) => WriteGrows(s, t, outcome, p);
    case Run(t) => RunLeavesStore(s, t);
    case _ =>
  }

  lemma RunLeavesStore(s: State, t: nat)
    requires CanRun(s, t)
    ensures RunStep(s, t).store == s.store
  {
    if s.threads[t].Load? {
      if IsSearch(s.threads[t].stage) { SearchLeavesStore(s, t); }
      else if IsInstall(s.threads[t].stage) { InstallLeavesStore(s, t); }
    }
  }

  lemma SearchLeavesStore(s: State, t: nat)
    requires CanRun(s, t) && s.threads[t].Load? && IsSearch(s.threads[t].stage)
    ensures SearchStep(s, t).store == s.store
  {
  }

  lemma InstallLeavesStore(s: State, t: nat)
    requires CanRun(s, t) && s.threads[t].Load? && IsInstall(s.threads[t].stage)
    ensures InstallStep(s, t).store == s.store
  {
  }

  lemma WriteGrows(s: State, t: nat, outcome: WriteOutcome, p: PageId)
    requires Inv(s) && Enabled(s, StoreWrite(t, outcome)) && p in s.store
    ensures StoreWriteStep(s, t, outcome).store.Keys == s.store.Keys
    ensures StoreWriteStep(s, t, outcome).store[p].image.version >= s.store[p].image.version
  {
    var (x, f) := WriteTarget(s.threads[t]).value;
    assert ThreadOk(s, t);
    assert FrameOk(s, f);
    assert PageOk(s, x);
  }

  // ----- where a page sits -----

  /** The frame that holds page `p`, or is still marked for it while it is on its way out. */
  ghost function Location(s: State, p: PageId): Option<nat> {
    if p !in s.table then None
    else match s.table[p]
      case Ready(i) => Some(i)
      case Loading(_) => None
      case Leaving(q) => if q.owner < |s.threads| then HoldOf(s.threads[q.owner]) else None
  }

  /** A page only arrives in a frame when the store already holds its last content. */
  lemma ArrivesStored(s: State, a: Action, p: PageId)
    requires Inv(s) && Enabled(s, a)
    ensures Location(Apply(s, a), p).Some? ==>
              Location(Apply(s, a), p) == Location(s, p) || p !in s.history || Stored(s, p)
  {
    if p in s.table { assert EntryOk(s, p); }
    if p in s.history { assert PageOk(s, p); }
    if a.Run? {
      assert ThreadOk(s, a.t);
      if s.threads[a.t].Load? { LoadArrives(s, a.t, p); }
    }
  }

  lemma LoadArrives(s: State, t: nat, p: PageId)
    requires Inv(s) && CanRun(s, t) && s.threads[t].Load? && LoaderOk(s, t)
    requires p in s.table ==> EntryOk(s, p)
    requires p in s.history ==> PageOk(s, p)
    ensures Location(LoadStep(s, t), p).Some? ==>
              Location(LoadStep(s, t), p) == Location(s, p) || p !in s.history || Stored(s, p)
  {
    if IsSearch(s.threads[t].stage) { SearchArrives(s, t, p); }
    else if IsInstall(s.threads[t].stage) { InstallArrives(s, t, p); }
    else { RollbackArrives(s, t, p); }
  }

  lemma SearchArrives(s: State, t: nat, p: PageId)
    requires CanRun(s, t) && s.threads[t].Load? && IsSearch(s.threads[t].stage) && LoaderOk(s, t)
    requires p in s.table ==> EntryOk(s, p)
    ensures Location(SearchStep(s, t), p).Some? ==> Location(SearchStep(s, t), p) == Location(s, p)
  {
    if s.threads[t].stage.Reserving? { ReserveArrives(s, t, p); }
  }

  lemma ReserveArrives(s: State, t: nat, p: PageId)
    requires CanRun(s, t) && s.threads[t].Load? && s.threads[t].stage.Reserving? && LoaderOk(s, t)
    requires p in s.table ==> EntryOk(s, p)
    ensures Location(ReserveStep(s, t), p).Some? ==> Location(ReserveStep(s, t), p) == Location(s, p)
  {
  }

  lemma InstallArrives(s: State, t: nat, p: PageId)
    requires CanRun(s, t) && s.threads[t].Load? && IsInstall(s.threads[t].stage) && LoaderOk(s, t)
    requires p in s.table ==> EntryOk(s, p)
    requires p in s.history ==> PageOk(s, p)
    ensures Location(InstallStep(s, t), p).Some? ==>
              Location(InstallStep(s, t), p) == Location(s, p) || p !in s.history || Stored(s, p)
  {
  }

  lemma RollbackArrives(s: State, t: nat, p: PageId)
    requires CanRun(s, t) && s.threads[t].Load? && IsRollback(s.threads[t].stage) && LoaderOk(s, t)
    requires p in s.table ==> EntryOk(s, p)
    ensures Location(RollbackStep(s, t), p).Some? ==> Location(RollbackStep(s, t), p) == Location(s, p)
  {
  }

  // ----- what a flush has achieved so far -----

  ghost predicate Covered(s: State, start: map<PageId, nat>, p: PageId)
    requires p in start
  {
    p in s.store && s.store[p].image.version >= start[p]
  }

  /** Every page that sits in a frame the flush has already passed is covered. */
  ghost predicate Swept(s: State, start: map<PageId, nat>, bound: nat) {
    forall p {:trigger Covered(s, start, p)} ::
      p in start && Location(s, p).Some? && Location(s, p).value < bound ==> Covered(s, start, p)
  }

  ghost predicate Started(s: State, start: map<PageId, nat>) {
    forall p :: p in start ==> p in s.history && start[p] < |s.history[p]|
  }

  ghost predicate FlushOk(s: State, pc: Pc) {
    match pc
    case Flush(start, i, phase) =>
      && Started(s, start) && Swept(s, start, i)
      && (phase.Releasing? && phase.page in start ==> Covered(s, start, phase.page))
    case Idle(Flushed(start)) => Started(s, start) && forall p :: p in start ==> Covered(s, start, p)
    case _ => true
  }

  ghost predicate FlushesOk(s: State) {
    forall t :: 0 <= t < |s.threads| ==> FlushOk(s, s.threads[t])
  }

  lemma StoredIsCovered(s: State, start: map<PageId, nat>, p: PageId)
    requires Started(s, start) && p in start && Stored(s, p)
    ensures Covered(s, start, p)
  {
  }

  /** What a flush has achieved survives every step of everybody else. */
  lemma FlushOkStays(s: State, a: Action, pc: Pc)
    requires Inv(s) && Enabled(s, a) && FlushOk(s, pc)
    ensures FlushOk(Apply(s, a), pc)
  {
    var s' := Apply(s, a);
    forall p | p in s.history ensures p in s'.history && |s'.history[p]| >= |s.history[p]| {}
    forall p | p in s.store ensures p in s'.store && s'.store[p].image.version >= s.store[p].image.version {
      StoreGrows(s, a, p);
    }
    if pc.Flush? {
      forall p | p in pc.start && Location(s', p).Some? && Location(s', p).value < pc.i
        ensures Covered(s', pc.start, p)
      {
        ArrivesStored(s, a, p);
        assert Covered(s, pc.start, p);
      }
    }
  }

  lemma SweptSame(s: State, s': State, t: nat, start: map<PageId, nat>, bound: nat)
    requires KeepsOthers(s, s', t) && s'.table == s.table && s'.store == s.store
    requires t < |s.threads| && !s.threads[t].Load? && !s'.threads[t].Load?
    requires Swept(s, start, bound)
    ensures Swept(s', start, bound)
  {
    forall p | p in start && Location(s', p).Some? && Location(s', p).value < bound
      ensures Covered(s', start, p)
    {
      SameLocation(s, s', t, p);
      assert Covered(s, start, p);
    }
  }

  /** The flush's own steps: it moves past a frame only when the page in it is covered. */
  lemma FlushOkAdvances(s: State, t: nat)
    requires Inv(s) && CanRun(s, t) && s.threads[t].Flush? && FlushOk(s, s.threads[t])
    ensures FlushOk(FlushStep(s, t), FlushStep(s, t).threads[t])
  {
    var s' := FlushStep(s, t);
    var Flush(start, i, phase) := s.threads[t];
    assert ThreadOk(s, t);
    SweptSame(s, s', t, start, i);
    match phase
    case Visiting => FlushOkVisits(s, t);
    case Pinned(x) => assert FrameOk(s, i);
    case Releasing(x) =>
      SweepPinned(s, t);
      SweptSame(s, s', t, start, i + 1);
    case _ =>
  }

  lemma FlushOkVisits(s: State, t: nat)
    requires Inv(s) && CanRun(s, t) && s.threads[t].Flush? && s.threads[t].phase.Visiting?
    requires FlushOk(s, s.threads[t]) && Swept(VisitStep(s, t), s.threads[t].start, s.threads[t].i)
    ensures FlushOk(VisitStep(s, t), VisitStep(s, t).threads[t])
  {
    var s' := VisitStep(s, t);
    var Flush(start, i, _) := s.threads[t];
    if i >= |s.frames| {
      SweptAll(s, t);
      forall p | p in start ensures Covered(s', start, p) { assert Covered(s, start, p); }
    } else if s.frames[i].state.Empty? {
      SweepEmpty(s, start, i);
      SweptSame(s, s', t, start, i + 1);
    }
  }

  lemma SameLocation(s: State, s': State, t: nat, p: PageId)
    requires KeepsOthers(s, s', t) && s'.table == s.table
    requires t < |s.threads| && !s.threads[t].Load? && !s'.threads[t].Load?
    ensures Location(s', p) == Location(s, p)
  {
  }

  /** No page sits in an empty frame. */
  lemma SweepEmpty(s: State, start: map<PageId, nat>, i: nat)
    requires Inv(s) && i < |s.frames| && s.frames[i].state.Empty? && Swept(s, start, i)
    ensures Swept(s, start, i + 1)
  {
    forall p | p in start && Location(s, p).Some? && Location(s, p).value < i + 1
      ensures Covered(s, start, p)
    {
      LocationState(s, p);
    }
  }

  lemma SweepPinned(s: State, t: nat)
    requires Inv(s) && t < |s.threads| && s.threads[t].Flush? && s.threads[t].phase.Releasing?
    requires FlushOk(s, s.threads[t])
    ensures Swept(s, s.threads[t].start, s.threads[t].i + 1)
  {
    var Flush(start, i, phase) := s.threads[t];
    assert ThreadOk(s, t);
    forall p | p in start && Location(s, p).Some? && Location(s, p).value < i + 1
      ensures Covered(s, start, p)
    {
      LocationState(s, p);
    }
  }

  lemma LocationState(s: State, p: PageId)
    requires Inv(s) && Location(s, p).Some?
    ensures var i := Location(s, p).value;
            i < |s.frames| && (s.frames[i].state == Valid(p) || s.frames[i].state.Evicting?)
  {
    assert EntryOk(s, p);
    if s.table[p].Leaving? { assert ThreadOk(s, s.table[p].pending.owner); }
  }

  lemma SweptAll(s: State, t: nat)
    requires Inv(s) && t < |s.threads| && s.threads[t].Flush? && s.threads[t].i >= |s.frames|
    requires FlushOk(s, s.threads[t])
    ensures forall p :: p in s.threads[t].start ==> Covered(s, s.threads[t].start, p)
  {
    var start := s.threads[t].start;
    forall p | p in start ensures Covered(s, start, p) {
      assert PageOk(s, p);
      if Location(s, p).Some? { LocationState(s, p); }
      else {
        if p in s.table { assert EntryOk(s, p); }
        StoredIsCovered(s, start, p);
      }
    }
  }

  lemma KeepFlushesOk(s: State, a: Action)
    requires Inv(s) && Enabled(s, a) && TearSafe(s, a) && FlushesOk(s)
    ensures FlushesOk(Apply(s, a))
  {
    var s' := Apply(s, a);
    forall t | 0 <= t < |s'.threads| ensures FlushOk(s', s'.threads[t]) {
      OthersStay(s, a, t);
      FlushOkStays(s, a, s.threads[t]);
      if s'.threads[t] != s.threads[t] { OwnFlushOk(s, a); }
    }
  }

  lemma OwnFlushOk(s: State, a: Action)
    requires Inv(s) && Enabled(s, a) && FlushesOk(s)
    requires !a.BeginWrite? && !a.EndWrite? && !a.DropGuard?
    ensures FlushOk(Apply(s, a), Apply(s, a).threads[a.t])
  {
    match a
    case Run(t) => if s.threads[t].Flush? { FlushOkAdvances(s, t); } else { RunStartsNoFlush(s, t); }
    case StoreWrite(t, outcome) => if s.threads[t].Flush? { FlushOkStays(s, a, s.threads[t]); }
    case StartFlush(t) => StartIsOk(s, t);
    case _ =>
  }

  lemma RunStartsNoFlush(s: State, t: nat)
    requires CanRun(s, t) && !s.threads[t].Flush?
    ensures !RunStep(s, t).threads[t].Flush?
    ensures RunStep(s, t).threads[t].Idle? ==> !RunStep(s, t).threads[t].reply.Flushed?
  {
    match s.threads[t]
    case Lookup(_, _) =>
    case Waiting(_, _, _) =>
    case Claiming(_, _) =>
    case Load(_, _, _, _) => assert RunStep(s, t) == LoadStep(s, t);
    case _ =>
  }

  lemma StartIsOk(s: State, t: nat)
    requires Inv(s) && Enabled(s, StartFlush(t))
    ensures FlushOk(Apply(s, StartFlush(t)), Apply(s, StartFlush(t)).threads[t])
  {
  }

  // ----- whole runs -----

  lemma {:induction false} FlushesOkAlong(s: State, actions: seq<Action>, last: State)
    requires Inv(s) && FlushesOk(s) && SafelyLeads(s, actions, last)
    ensures Inv(last) && FlushesOk(last)
    decreases |actions|
  {
    if actions != [] {
      KeepStep(s, actions[0]);
      KeepFlushesOk(s, actions[0]);
      FlushesOkAlong(Apply(s, actions[0]), actions[1..], last);
    }
  }

  /** A flush remembers the versions it started with until it replies. */
  lemma {:induction false} RemembersStart(s: State, actions: seq<Action>, last: State, t: nat, start: map<PageId, nat>)
    requires Inv(s) && SafelyLeads(s, actions, last) && t < |s.threads| && StartsNothing(actions, t)
    requires (s.threads[t].Flush? && s.threads[t].start == start)
             || s.threads[t] == Idle(Flushed(start)) || s.threads[t] == Idle(Failed(Io))
    ensures t < |last.threads|
    ensures last.threads[t].Idle? && last.threads[t].reply.Flushed? ==> last.threads[t].reply.start == start
    decreases |actions|
  {
    if actions != [] {
      var a := actions[0];
      assert a.StartFetch? || a.StartFlush? ==> a.t != t;
      OthersStay(s, a, t);
      KeepStep(s, a);
      forall k | 0 <= k < |actions[1..]| ensures actions[1..][k] == actions[k + 1] {}
      RemembersStart(Apply(s, a), actions[1..], last, t, start);
    }
  }

  /**
  Main durability result. A flush starts in some reachable state `s`; whatever guards, fetches,
  evictions, failed writes and other flushes do meanwhile, when it has returned Ok (and for
  ever after) every page's store version is at least the version of the last guard write that
  had finished at its start. An intact store page holds exactly the bytes of its version; a
  page that a failed write has torn since then is still held, dirty, in a frame.
  */
  lemma FlushIsDurable(init: State, before: seq<Action>, s: State, t: nat, during: seq<Action>, last: State, p: PageId)
    requires Init(init) && SafelyLeads(init, before, s)
    requires Enabled(s, StartFlush(t)) && SafelyLeads(Apply(s, StartFlush(t)), during, last)
    requires StartsNothing(during, t) && t < |last.threads|
    requires last.threads[t].Idle? && last.threads[t].reply.Flushed?
    requires p in s.history
    ensures |s.history[p]| > 0 && p in last.store && p in last.history
    ensures |s.history[p]| - 1 <= last.store[p].image.version < |last.history[p]|
    ensures !last.store[p].torn ==> last.store[p].image.bytes == last.history[p][last.store[p].image.version]
    ensures last.store[p].torn ==>
              && Location(last, p).Some? && Location(last, p).value < |last.frames|
              && last.frames[Location(last, p).value].dirty
              && IsLatest(last, p, last.frames[Location(last, p).value].data)
  {
    InitInv(init);
    forall u | 0 <= u < |init.threads| ensures FlushOk(init, init.threads[u]) {}
    FlushesOkAlong(init, before, s);
    assert PageOk(s, p);
    var s1 := Apply(s, StartFlush(t));
    KeepStep(s, StartFlush(t));
    KeepFlushesOk(s, StartFlush(t));
    FlushesOkAlong(s1, during, last);
    RemembersStart(s1, during, last, t, VersionsNow(s));
    assert FlushOk(last, last.threads[t]);
    assert Covered(last, VersionsNow(s), p);
    assert PageOk(last, p);
    if last.store[p].torn { TornIsHeld(last, p); }
  }

  /** A page whose store copy is torn is held in a frame, latest and dirty. */
  lemma TornIsHeld(s: State, p: PageId)
    requires Inv(s) && p in s.history && p in s.store && s.store[p].torn
    ensures Location(s, p).Some? && Location(s, p).value < |s.frames|
    ensures s.frames[Location(s, p).value].dirty && IsLatest(s, p, s.frames[Location(s, p).value].data)
  {
    assert PageOk(s, p);
    assert EntryOk(s, p);
    if s.table[p].Ready? { assert FrameOk(s, s.table[p].index); }
    else { assert ThreadOk(s, s.table[p].pending.owner); }
  }

  // ----- over a store whose failed writes change nothing -----

  /** No store copy is torn. */
  ghost predicate NothingTorn(s: State) {
    forall p :: p in s.store ==> !s.store[p].torn
  }

  lemma {:induction false} NothingTearsAlong(s: State, actions: seq<Action>, last: State)
    requires Inv(s) && NothingTorn(s) && Leads(s, actions, last) && AtomicStore(actions)
    ensures NothingTorn(last)
    decreases |actions|
  {
    if actions != [] {
      var a := actions[0];
      assert !(a.StoreWrite? && a.outcome.Torn?);
      KeepStep(s, a);
      TearsNothing(s, a);
      forall k | 0 <= k < |actions[1..]| ensures actions[1..][k] == actions[k + 1] {}
      NothingTearsAlong(Apply(s, a), actions[1..], last);
    }
  }

  lemma TearsNothing(s: State, a: Action)
    requires NothingTorn(s) && Enabled(s, a) && !(a.StoreWrite? && a.outcome.Torn?)
    ensures NothingTorn(Apply(s, a))
  {
    if a.Run? { RunLeavesStore(s, a.t); }
  }

  /** A run over such a store, in two parts. */
  lemma NothingTornAfter(init: State, before: seq<Action>, s: State, a: Action, during: seq<Action>, last: State)
    requires Init(init) && Leads(init, before, s) && AtomicStore(before)
    requires Enabled(s, a) && !a.StoreWrite? && Leads(Apply(s, a), during, last) && AtomicStore(during)
    ensures SafelyLeads(init, before, s) && SafelyLeads(Apply(s, a), during, last) && NothingTorn(last)
  {
    AtomicStoreIsSafe(init, before, s);
    AtomicStoreIsSafe(Apply(s, a), during, last);
    InitInv(init);
    InvAlong(init, before, s);
    NothingTearsAlong(init, before, s);
    KeepStep(s, a);
    TearsNothing(s, a);
    NothingTearsAlong(Apply(s, a), during, last);
  }

  /**
  Over a store whose failed writes change nothing, a flush that has returned Ok leaves in the
  store, of every page, the bytes of some guard write no older than the last one before its start.
  */
  lemma AtomicFlushIsDurable(init: State, before: seq<Action>, s: State, t: nat, during: seq<Action>, last: State,
                             p: PageId)
    requires Init(init) && Leads(init, before, s) && AtomicStore(before)
    requires Enabled(s, StartFlush(t)) && Leads(Apply(s, StartFlush(t)), during, last) && AtomicStore(during)
    requires StartsNothing(during, t) && t < |last.threads|
    requires last.threads[t].Idle? && last.threads[t].reply.Flushed?
    requires p in s.history
    ensures p in last.store && p in last.history
    ensures exists v :: 0 <= |s.history[p]| - 1 <= v < |last.history[p]|
                        && last.store[p].image.bytes == last.history[p][v]
  {
    NothingTornAfter(init, before, s, StartFlush(t), during, last);
    FlushIsDurable(init, before, s, t, during, last, p);
    var v := last.store[p].image.version;
    assert last.store[p].image.bytes == last.history[p][v];
  }
}
