/** The one way the concurrent pool can lose an update. */
module PoolV3TornFlush {
  // Two flushes of the same page overlap, the first writes the page and marks its frame clean, and the second
  // one's write fails half way.

  import opened Storage
  import opened PoolV3
  import opened PoolV3Invariant
  import opened PoolV3Runs
  import opened PoolV3Schedules

  /** No clean frame, and no frame that a flush is about to mark clean, hides a bad store copy. */
  ghost predicate NothingAtRisk(s: State) {
    forall f :: 0 <= f < |s.frames| && s.frames[f].state.Valid? ==>
      !s.frames[f].dirty || BeingCleaned(s, f) ==> Stored(s, s.frames[f].state.page)
  }

  ghost predicate BeingCleaned(s: State, f: nat) {
    exists t :: 0 <= t < |s.threads| && s.threads[t].Flush? && s.threads[t].i == f && s.threads[t].phase.Wrote?
  }

  /**
  The exact condition: a flush's write that fails half way leaves nothing at risk if and only if
  the frame is still marked dirty and no other flush has written it and is about to mark it clean.
  */
  lemma TearExactly(s: State, t: nat, garbage: Bytes)
    requires Inv(s) && Enabled(s, StoreWrite(t, Torn(garbage))) && s.threads[t].Flush?
    ensures NothingAtRisk(Apply(s, StoreWrite(t, Torn(garbage)))) <==> TearSafe(s, StoreWrite(t, Torn(garbage)))
  {
    var a := StoreWrite(t, Torn(garbage));
    var s' := Apply(s, a);
    var i := s.threads[t].i;
    assert ThreadOk(s, t);
    if TearSafe(s, a) {
      KeepStep(s, a);
      InvMeansNothingAtRisk(s');
    } else {
      assert s'.frames[i].state == Valid(s.threads[t].phase.page);
      assert !Stored(s', s.threads[t].phase.page);
      if s.frames[i].dirty {
        var u :| 0 <= u < |s.threads| && u != t && s.threads[u].Flush? && s.threads[u].i == i
                 && s.threads[u].phase.Wrote?;
        assert s'.threads[u] == s.threads[u];
        assert BeingCleaned(s', i);
      }
    }
  }

  lemma InvMeansNothingAtRisk(s: State)
    requires Inv(s)
    ensures NothingAtRisk(s)
  {
    forall f | 0 <= f < |s.frames| && s.frames[f].state.Valid? && (!s.frames[f].dirty || BeingCleaned(s, f))
      ensures Stored(s, s.frames[f].state.page)
    {
      assert FrameOk(s, f);
      if s.frames[f].dirty {
        var t :| 0 <= t < |s.threads| && s.threads[t].Flush? && s.threads[t].i == f && s.threads[t].phase.Wrote?;
        assert ThreadOk(s, t);
      }
    }
  }

  /** In no state of the run is anything at risk. */
  ghost predicate NeverAtRisk(s: State, actions: seq<Action>)
    decreases |actions|
  {
    && NothingAtRisk(s)
    && (actions != [] && Enabled(s, actions[0]) ==> NeverAtRisk(Apply(s, actions[0]), actions[1..]))
  }

  /**
  Over whole runs: nothing is ever at risk if and only if each half-failed flush write along the
  run found its frame dirty with no other flush about to mark it clean. So the runs that all the
  results about this pool speak of are exactly the runs in which no store copy goes bad unnoticed.
  */
  lemma {:induction false} SafeRunsExactly(s: State, actions: seq<Action>, last: State)
    requires Inv(s) && Leads(s, actions, last)
    ensures SafelyLeads(s, actions, last) <==> NeverAtRisk(s, actions)
    decreases |actions|
  {
    InvMeansNothingAtRisk(s);
    if actions != [] {
      var a := actions[0];
      if TearSafe(s, a) {
        KeepStep(s, a);
        SafeRunsExactly(Apply(s, a), actions[1..], last);
      } else {
        TearExactly(s, a.t, a.outcome.garbage);
      }
    }
  }

  // ----- what the damage leads to -----

  /** Thread `t` is about to replace page `x` in frame `f`, which is clean although the store lacks the page's bytes. */
  ghost predicate DamagedVictim(s: State, t: nat, f: nat, x: PageId) {
    && t < |s.threads| && s.threads[t].Load? && s.threads[t].stage == Reserved(f, Some(x))
    && s.threads[t].page in s.store && f < |s.frames| && !s.frames[f].dirty && !Stored(s, x)
  }

  /** The page is in no frame, and the store does not hold its last bytes either. */
  ghost predicate Gone(s: State, x: PageId) {
    x !in s.table && !Stored(s, x)
  }

  /** A clean frame that hides a bad store copy becomes such a victim as soon as a search takes it. */
  lemma TakesDamaged(s: State, t: nat, x: PageId) returns (path: seq<State>, acts: seq<Action>)
    requires CanRun(s, t) && s.threads[t].Load? && s.threads[t].stage.Reserving?
    requires s.threads[t].stage.snapshot == Some(x) && Reservable(s, s.threads[t].stage.f, Some(x))
    requires var frame := s.frames[s.threads[t].stage.f];
             !frame.dirty && (s.threads[t].stage.k >= |s.frames| || !frame.referenced)
    requires !Stored(s, x) && s.threads[t].page in s.store
    ensures acts == [Run(t)] && Path(path, acts) && path[0] == s && OnlyMoves(s, path[1], t)
    ensures DamagedVictim(path[1], t, s.threads[t].stage.f, x)
  {
    acts := [Run(t)];
    path := [s, ReserveStep(s, t)];
    assert Takes(path[0], acts[0], path[1]);
  }

  /** The store and every page's history are as they were, and no other thread has moved. */
  ghost predicate OnlyMoves(s: State, r: State, t: nat) {
    KeepsOthers(s, r, t) && r.store == s.store
  }

  lemma ReadsOver(s: State, t: nat, f: nat, x: PageId) returns (path: seq<State>, acts: seq<Action>)
    requires DamagedVictim(s, t, f, x)
    ensures acts == [Run(t), StoreRead(t, true)] && Path(path, acts) && path[0] == s && OnlyMoves(s, path[2], t)
    ensures path[2].threads[t].Load?
    ensures path[2].threads[t].stage == Replacing(f, Some(x), s.store[s.threads[t].page].image)
  {
    acts := [Run(t), StoreRead(t, true)];
    path := [s, Apply(s, acts[0]), Apply(Apply(s, acts[0]), acts[1])];
    assert Takes(path[0], acts[0], path[1]);
    assert Takes(path[1], acts[1], path[2]);
  }

  lemma Overwrites(s: State, t: nat, f: nat, x: PageId) returns (path: seq<State>, acts: seq<Action>)
    requires t < |s.threads| && s.threads[t].Load? && f < |s.frames|
    requires s.threads[t].stage.Replacing? && s.threads[t].stage.f == f && s.threads[t].stage.prior == Some(x)
    ensures acts == [Run(t), Run(t)] && Path(path, acts) && path[0] == s && OnlyMoves(s, path[2], t)
    ensures x !in path[2].table
  {
    acts := [Run(t), Run(t)];
    path := [s, ReplaceStep(s, t), RemoveOldStep(ReplaceStep(s, t), t)];
    assert Takes(path[0], acts[0], path[1]);
    assert Takes(path[1], acts[1], path[2]);
  }

  /** From any such state the thread's own next four steps leave the page's last write nowhere. */
  lemma DamageSpreads(s: State, t: nat, f: nat, x: PageId) returns (path: seq<State>, acts: seq<Action>)
    requires DamagedVictim(s, t, f, x)
    ensures |acts| == 4 && acts == [Run(t), StoreRead(t, true), Run(t), Run(t)]
    ensures Path(path, acts) && path[0] == s && OnlyMoves(s, path[4], t) && Gone(path[4], x)
  {
    path, acts := ReadsOver(s, t, f, x);
    var more, moreActs := Overwrites(path[2], t, f, x);
    path, acts := Join(path, acts, more, moreActs);
  }

  // ----- a run that loses an update -----

  const A := PageId(1, 1)
  const B := PageId(1, 2)
  const OLD := Image([0], 0)
  const NEW := Image([7], 1)
  const GARBAGE := Image([9], 1)

  /** One frame, two pages, a client (thread 0) and two flushers (threads 1 and 2). */
  ghost function World(cell: Cell, history: seq<Bytes>, frame: Frame, table: map<PageId, Entry>, hand: nat,
                       threads: seq<Pc>, guards: map<nat, Guard>, done: set<Pending>, serial: nat): State {
    State(map[A := cell, B := Cell(OLD, false)], [frame], table, hand, threads, guards, done, serial,
          map[A := history, B := [OLD.bytes]])
  }

  const FirstLoad := Pending(0, 0)
  const SecondLoad := Pending(0, 2)

  /** Everything idle, nothing cached. */
  ghost function Start(): State {
    World(Cell(OLD, false), [OLD.bytes], Frame(Empty, Image([], 0), 0, false, false), map[], 0,
          [Idle(Nothing), Idle(Nothing), Idle(Nothing)], map[], {}, 0)
  }

  /** The client holds a guard on page A. */
  ghost function Fetched(history: seq<Bytes>, data: Image, dirty: bool, writing: bool): State {
    World(Cell(OLD, false), history, Frame(Valid(A), data, 1, true, dirty), map[A := Ready(0)], 1,
          [Idle(Guarded(1)), Idle(Nothing), Idle(Nothing)], map[1 := Guard(A, 0, writing)], {FirstLoad}, 2)
  }

  const Versions: map<PageId, nat> := map[A := 1, B := 0]

  /** The client has overwritten page A and dropped its guard; the other threads flush. */
  ghost function Flushing(cell: Cell, pin: nat, dirty: bool, pc1: Pc, pc2: Pc): State {
    World(cell, [OLD.bytes, NEW.bytes], Frame(Valid(A), NEW, pin, true, dirty), map[A := Ready(0)], 1,
          [Idle(Guarded(1)), pc1, pc2], map[], {FirstLoad}, 2)
  }

  ghost function At(phase: FlushStage): Pc { Flush(Versions, 0, phase) }

  /** The first flush has returned Ok, the second one's write has failed; the client loads page B. */
  ghost function WithoutA(frame: Frame, table: map<PageId, Entry>, hand: nat, pc: Pc, serial: nat): State {
    World(Cell(GARBAGE, true), [OLD.bytes, NEW.bytes], frame, table, hand,
          [pc, Idle(Flushed(Versions)), Idle(Failed(Io))], map[], {FirstLoad}, serial)
  }

  const STALE := Frame(Valid(A), NEW, 0, false, false)
  const STALE_HOT := STALE.(referenced := true)
  const READY: map<PageId, Entry> := map[A := Ready(0)]
  const CLAIMED_B: map<PageId, Entry> := READY[B := Loading(SecondLoad)]

  ghost function LoadB(stage: LoadStage): Pc { Load(B, Normal, SecondLoad, stage) }

  lemma OverwriteA() returns (path: seq<State>, acts: seq<Action>)
    ensures Path(path, acts) && path[0] == Fetched([OLD.bytes], OLD, false, false)
    ensures path[|acts|] == Fetched([OLD.bytes, NEW.bytes], NEW, true, false)
  {
    path := [Fetched([OLD.bytes], OLD, false, false),
             Fetched([OLD.bytes], OLD, true, true),
             Fetched([OLD.bytes, NEW.bytes], NEW, true, false)];
    acts := [BeginWrite(1), EndWrite(1, NEW.bytes)];
    assert [OLD.bytes] + [NEW.bytes] == [OLD.bytes, NEW.bytes];
    assert Takes(path[0], acts[0], path[1]);
    assert Takes(path[1], acts[1], path[2]);
  }

  lemma DropA() returns (path: seq<State>, acts: seq<Action>)
    ensures Path(path, acts) && path[0] == Fetched([OLD.bytes, NEW.bytes], NEW, true, false)
    ensures path[|acts|] == Flushing(Cell(OLD, false), 0, true, Idle(Nothing), Idle(Nothing))
  {
    path := [Fetched([OLD.bytes, NEW.bytes], NEW, true, false),
             Flushing(Cell(OLD, false), 0, true, Idle(Nothing), Idle(Nothing))];
    acts := [DropGuard(1)];
    assert Takes(path[0], acts[0], path[1]);
  }

  lemma BothStart() returns (path: seq<State>, acts: seq<Action>)
    ensures Path(path, acts) && path[0] == Flushing(Cell(OLD, false), 0, true, Idle(Nothing), Idle(Nothing))
    ensures path[|acts|] == Flushing(Cell(OLD, false), 0, true, At(Visiting), At(Visiting))
  {
    path := [Flushing(Cell(OLD, false), 0, true, Idle(Nothing), Idle(Nothing)),
             Flushing(Cell(OLD, false), 0, true, At(Visiting), Idle(Nothing)),
             Flushing(Cell(OLD, false), 0, true, At(Visiting), At(Visiting))];
    acts := [StartFlush(1), StartFlush(2)];
    assert VersionsNow(path[0]) == Versions && VersionsNow(path[1]) == Versions;
    assert Takes(path[0], acts[0], path[1]);
    assert Takes(path[1], acts[1], path[2]);
  }

  lemma BothPin() returns (path: seq<State>, acts: seq<Action>)
    ensures Path(path, acts) && path[0] == Flushing(Cell(OLD, false), 0, true, At(Visiting), At(Visiting))
    ensures path[|acts|] == Flushing(Cell(OLD, false), 2, true, At(Pinned(A)), At(Pinned(A)))
  {
    path := [Flushing(Cell(OLD, false), 0, true, At(Visiting), At(Visiting)),
             Flushing(Cell(OLD, false), 1, true, At(Pinned(A)), At(Visiting)),
             Flushing(Cell(OLD, false), 2, true, At(Pinned(A)), At(Pinned(A)))];
    acts := [Run(1), Run(2)];
    assert Takes(path[0], acts[0], path[1]);
    assert Takes(path[1], acts[1], path[2]);
  }

  lemma BothSeeDirty() returns (path: seq<State>, acts: seq<Action>)
    ensures Path(path, acts) && path[0] == Flushing(Cell(OLD, false), 2, true, At(Pinned(A)), At(Pinned(A)))
    ensures path[|acts|] == Flushing(Cell(OLD, false), 2, true, At(Locking(A)), At(Locking(A)))
  {
    path := [Flushing(Cell(OLD, false), 2, true, At(Pinned(A)), At(Pinned(A))),
             Flushing(Cell(OLD, false), 2, true, At(Locking(A)), At(Pinned(A))),
             Flushing(Cell(OLD, false), 2, true, At(Locking(A)), At(Locking(A)))];
    acts := [Run(1), Run(2)];
    assert Takes(path[0], acts[0], path[1]);
    assert Takes(path[1], acts[1], path[2]);
  }

  lemma BothLock() returns (path: seq<State>, acts: seq<Action>)
    ensures Path(path, acts) && path[0] == Flushing(Cell(OLD, false), 2, true, At(Locking(A)), At(Locking(A)))
    ensures path[|acts|] == Flushing(Cell(OLD, false), 2, true, At(Locked(A)), At(Locked(A)))
  {
    path := [Flushing(Cell(OLD, false), 2, true, At(Locking(A)), At(Locking(A))),
             Flushing(Cell(OLD, false), 2, true, At(Locked(A)), At(Locking(A))),
             Flushing(Cell(OLD, false), 2, true, At(Locked(A)), At(Locked(A)))];
    acts := [Run(1), Run(2)];
    assert Takes(path[0], acts[0], path[1]);
    assert Takes(path[1], acts[1], path[2]);
  }

  /** The first flush writes and marks clean; the second one's write then fails half way. */
  lemma OneWritesOneTears() returns (path: seq<State>, acts: seq<Action>)
    ensures Path(path, acts) && path[0] == Flushing(Cell(OLD, false), 2, true, At(Locked(A)), At(Locked(A)))
    ensures path[|acts|] == Flushing(Cell(GARBAGE, true), 2, false, At(Releasing(A)), At(Aborting(A)))
  {
    path := [Flushing(Cell(OLD, false), 2, true, At(Locked(A)), At(Locked(A))),
             Flushing(Cell(NEW, false), 2, true, At(Wrote(A)), At(Locked(A))),
             Flushing(Cell(NEW, false), 2, false, At(Releasing(A)), At(Locked(A))),
             Flushing(Cell(GARBAGE, true), 2, false, At(Releasing(A)), At(Aborting(A)))];
    acts := [StoreWrite(1, Written), Run(1), StoreWrite(2, Torn(GARBAGE.bytes))];
    assert Takes(path[0], acts[0], path[1]);
    assert Takes(path[1], acts[1], path[2]);
    assert Takes(path[2], acts[2], path[3]);
  }

  lemma FirstReplies() returns (path: seq<State>, acts: seq<Action>)
    ensures Path(path, acts) && path[0] == Flushing(Cell(GARBAGE, true), 2, false, At(Releasing(A)), At(Aborting(A)))
    ensures path[|acts|] == Flushing(Cell(GARBAGE, true), 1, false, Idle(Flushed(Versions)), At(Aborting(A)))
  {
    path := [Flushing(Cell(GARBAGE, true), 2, false, At(Releasing(A)), At(Aborting(A))),
             Flushing(Cell(GARBAGE, true), 1, false, Flush(Versions, 1, Visiting), At(Aborting(A))),
             Flushing(Cell(GARBAGE, true), 1, false, Idle(Flushed(Versions)), At(Aborting(A)))];
    acts := [Run(1), Run(1)];
    assert Takes(path[0], acts[0], path[1]);
    assert Takes(path[1], acts[1], path[2]);
  }

  lemma SecondReplies() returns (path: seq<State>, acts: seq<Action>)
    ensures Path(path, acts)
    ensures path[0] == Flushing(Cell(GARBAGE, true), 1, false, Idle(Flushed(Versions)), At(Aborting(A)))
    ensures path[|acts|] == Flushing(Cell(GARBAGE, true), 0, false, Idle(Flushed(Versions)), Idle(Failed(Io)))
  {
    path := [Flushing(Cell(GARBAGE, true), 1, false, Idle(Flushed(Versions)), At(Aborting(A))),
             Flushing(Cell(GARBAGE, true), 0, false, Idle(Flushed(Versions)), Idle(Failed(Io)))];
    acts := [Run(2)];
    assert Takes(path[0], acts[0], path[1]);
  }

  lemma ClaimB() returns (path: seq<State>, acts: seq<Action>)
    ensures Path(path, acts) && path[0] == WithoutA(STALE_HOT, READY, 1, Idle(Guarded(1)), 2)
    ensures path[|acts|] == WithoutA(STALE_HOT, CLAIMED_B, 1, LoadB(Choosing(0)), 3)
  {
    path := [WithoutA(STALE_HOT, READY, 1, Idle(Guarded(1)), 2),
             WithoutA(STALE_HOT, READY, 1, Lookup(B, Normal), 2),
             WithoutA(STALE_HOT, READY, 1, Claiming(B, Normal), 2),
             WithoutA(STALE_HOT, CLAIMED_B, 1, LoadB(Choosing(0)), 3)];
    acts := [StartFetch(0, B, Normal), Run(0), Run(0)];
    assert Takes(path[0], acts[0], path[1]);
    assert Takes(path[1], acts[1], path[2]);
    assert Takes(path[2], acts[2], path[3]);
  }

  lemma LookAtHotA() returns (path: seq<State>, acts: seq<Action>)
    ensures Path(path, acts) && path[0] == WithoutA(STALE_HOT, CLAIMED_B, 1, LoadB(Choosing(0)), 3)
    ensures path[|acts|] == WithoutA(STALE_HOT, CLAIMED_B, 2, LoadB(Reserving(0, 0, Some(A))), 3)
  {
    path := [WithoutA(STALE_HOT, CLAIMED_B, 1, LoadB(Choosing(0)), 3),
             WithoutA(STALE_HOT, CLAIMED_B, 2, LoadB(Looking(0, 0)), 3),
             WithoutA(STALE_HOT, CLAIMED_B, 2, LoadB(Reserving(0, 0, Some(A))), 3)];
    acts := [Run(0), Run(0)];
    assert Takes(path[0], acts[0], path[1]);
    assert Takes(path[1], acts[1], path[2]);
  }

  lemma SpareA() returns (path: seq<State>, acts: seq<Action>)
    ensures Path(path, acts) && path[0] == WithoutA(STALE_HOT, CLAIMED_B, 2, LoadB(Reserving(0, 0, Some(A))), 3)
    ensures path[|acts|] == WithoutA(STALE, CLAIMED_B, 2, LoadB(Choosing(1)), 3)
  {
    path := [WithoutA(STALE_HOT, CLAIMED_B, 2, LoadB(Reserving(0, 0, Some(A))), 3),
             WithoutA(STALE, CLAIMED_B, 2, LoadB(Choosing(1)), 3)];
    acts := [Run(0)];
    assert Takes(path[0], acts[0], path[1]);
  }

  /** The damaged page is clean, so it is evicted without a write-back. */
  lemma LookAtA() returns (path: seq<State>, acts: seq<Action>)
    ensures Path(path, acts) && path[0] == WithoutA(STALE, CLAIMED_B, 2, LoadB(Choosing(1)), 3)
    ensures path[|acts|] == WithoutA(STALE, CLAIMED_B, 3, LoadB(Reserving(1, 0, Some(A))), 3)
  {
    path := [WithoutA(STALE, CLAIMED_B, 2, LoadB(Choosing(1)), 3),
             WithoutA(STALE, CLAIMED_B, 3, LoadB(Looking(1, 0)), 3),
             WithoutA(STALE, CLAIMED_B, 3, LoadB(Reserving(1, 0, Some(A))), 3)];
    acts := [Run(0), Run(0)];
    assert Takes(path[0], acts[0], path[1]);
    assert Takes(path[1], acts[1], path[2]);
  }

  lemma ClientFetches() returns (path: seq<State>, acts: seq<Action>)
    ensures Init(Start()) && Path(path, acts) && path[0] == Start()
    ensures path[|acts|] == Fetched([OLD.bytes], OLD, false, false)
  {
    path, acts := FirstFetch(Start(), 0, A);
    assert FirstFetched(Start(), 0, A) == Fetched([OLD.bytes], OLD, false, false);
  }

  lemma ClientWrites() returns (path: seq<State>, acts: seq<Action>)
    ensures Init(Start()) && Path(path, acts) && path[0] == Start()
    ensures path[|acts|] == Flushing(Cell(OLD, false), 0, true, Idle(Nothing), Idle(Nothing))
  {
    path, acts := ClientFetches();
    var more, moreActs := OverwriteA();
    path, acts := Join(path, acts, more, moreActs);
    more, moreActs := DropA();
    path, acts := Join(path, acts, more, moreActs);
  }

  lemma FlushesOverlap() returns (path: seq<State>, acts: seq<Action>)
    ensures Path(path, acts) && path[0] == Flushing(Cell(OLD, false), 0, true, Idle(Nothing), Idle(Nothing))
    ensures path[|acts|] == Flushing(Cell(GARBAGE, true), 0, false, Idle(Flushed(Versions)), Idle(Failed(Io)))
  {
    path, acts := BothStart();
    var more, moreActs := BothPin();
    path, acts := Join(path, acts, more, moreActs);
    more, moreActs := BothSeeDirty();
    path, acts := Join(path, acts, more, moreActs);
    more, moreActs := BothLock();
    path, acts := Join(path, acts, more, moreActs);
    more, moreActs := OneWritesOneTears();
    path, acts := Join(path, acts, more, moreActs);
    more, moreActs := FirstReplies();
    path, acts := Join(path, acts, more, moreActs);
    more, moreActs := SecondReplies();
    path, acts := Join(path, acts, more, moreActs);
  }

  lemma VictimIsDamaged() returns (path: seq<State>, acts: seq<Action>)
    ensures Path(path, acts) && path[0] == WithoutA(STALE_HOT, READY, 1, Idle(Guarded(1)), 2)
    ensures DamagedVictim(path[|acts|], 0, 0, A) && OnlyMoves(path[0], path[|acts|], 0)
  {
    path, acts := ClaimB();
    var more, moreActs := LookAtHotA();
    path, acts := Join(path, acts, more, moreActs);
    more, moreActs := SpareA();
    path, acts := Join(path, acts, more, moreActs);
    more, moreActs := LookAtA();
    path, acts := Join(path, acts, more, moreActs);
    more, moreActs := TakesDamaged(path[|acts|], 0, A);
    path, acts := Join(path, acts, more, moreActs);
  }

  /**
  From an initial state: a client overwrites page A, two flushes overlap, and the client's next
  fetch takes A's frame. One flush has replied Ok, and the write it covers is gone.
  */
  lemma OverlappingFlushesLoseAnUpdate() returns (actions: seq<Action>, last: State)
    ensures Init(Start()) && Leads(Start(), actions, last) && Gone(last, A)
    ensures |last.threads| == 3 && last.threads[1] == Idle(Flushed(Versions)) && Versions[A] == 1
    ensures A in last.history && last.history[A] == [OLD.bytes, NEW.bytes]
    ensures A in last.store && last.store[A].image.bytes == GARBAGE.bytes != NEW.bytes
  {
    var path, acts := ClientWrites();
    var more, moreActs := FlushesOverlap();
    path, acts := Join(path, acts, more, moreActs);
    more, moreActs := VictimIsDamaged();
    path, acts := Join(path, acts, more, moreActs);
    var damaged := path[|acts|];
    assert GARBAGE.bytes[0] != NEW.bytes[0];
    more, moreActs := DamageSpreads(damaged, 0, 0, A);
    path, acts := Join(path, acts, more, moreActs);
    PathLeads(path, acts);
    actions, last := acts, path[|acts|];
  }
}
