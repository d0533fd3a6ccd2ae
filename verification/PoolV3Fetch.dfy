/** What becomes of an operation of the concurrent pool, over whole runs. */
module PoolV3Fetch {
  // A fetch works on its own page from its start to its reply, and replies with a guard on that page. It fails
  // with an I/O error exactly if a store call of its own has failed; so does a flush.

  import opened Storage
  import opened PoolV3
  import opened PoolV3Invariant
  import opened PoolV3Runs
  import opened PoolV3Coherence

  /** The thread is fetching page `p`. */
  ghost predicate Fetching(pc: Pc, p: PageId, mode: AccessMode) {
    (pc.Lookup? || pc.Waiting? || pc.Claiming? || pc.Load?) && pc.page == p && pc.mode == mode
  }

  /** The thread's own call into the store fails. */
  ghost predicate StoreFails(a: Action, t: nat) {
    (a.StoreWrite? && a.t == t && !a.outcome.Written?) || (a.StoreRead? && a.t == t && !a.ok)
  }

  ghost predicate SomeStoreFails(actions: seq<Action>, t: nat) {
    exists k :: 0 <= k < |actions| && StoreFails(actions[k], t)
  }

  ghost predicate Starts(a: Action, t: nat) {
    (a.StartFetch? || a.StartFlush?) && a.t == t
  }

  /** The thread is on its way to report an I/O error. */
  ghost predicate Failing(pc: Pc) {
    (pc.Load? && IsRollback(pc.stage)) || (pc.Flush? && pc.phase.Aborting?)
  }

  // ----- one step -----

  /** What a thread that fetches `p` may have become after one step; `failed` tells of a failed store call. */
  ghost predicate FetchGoesOn(pc: Pc, p: PageId, mode: AccessMode, failed: bool) {
    if Fetching(pc, p, mode) then Failing(pc) <==> failed
    else pc.Idle? && match pc.reply
                     case Guarded(_) => !failed
                     case Failed(Io) => failed
                     case Failed(AllFramesPinned) => !failed
                     case _ => false
  }

  lemma SearchGoesOn(s: State, t: nat, p: PageId, mode: AccessMode)
    requires CanRun(s, t) && s.threads[t].Load? && IsSearch(s.threads[t].stage) && Fetching(s.threads[t], p, mode)
    ensures FetchGoesOn(SearchStep(s, t).threads[t], p, mode, false)
  {
    match s.threads[t].stage
    case Choosing(_) => assert SearchStep(s, t) == TickStep(s, t);
    case Looking(_, _) => SnapshotGoesOn(s, t, p, mode);
    case Reserving(_, _, _) => ReserveGoesOn(s, t, p, mode);
    case Scanning(_) => ScanGoesOn(s, t, p, mode);
    case AwaitingVictim(_) =>
    case GivingUp =>
    case GivenUp =>
  }

  lemma SnapshotGoesOn(s: State, t: nat, p: PageId, mode: AccessMode)
    requires CanRun(s, t) && s.threads[t].Load? && s.threads[t].stage.Looking? && Fetching(s.threads[t], p, mode)
    ensures SearchStep(s, t) == SnapshotStep(s, t) && FetchGoesOn(SnapshotStep(s, t).threads[t], p, mode, false)
  {
  }

  lemma ReserveGoesOn(s: State, t: nat, p: PageId, mode: AccessMode)
    requires CanRun(s, t) && s.threads[t].Load? && s.threads[t].stage.Reserving? && Fetching(s.threads[t], p, mode)
    ensures SearchStep(s, t) == ReserveStep(s, t) && FetchGoesOn(ReserveStep(s, t).threads[t], p, mode, false)
  {
  }

  lemma ScanGoesOn(s: State, t: nat, p: PageId, mode: AccessMode)
    requires CanRun(s, t) && s.threads[t].Load? && s.threads[t].stage.Scanning? && Fetching(s.threads[t], p, mode)
    ensures SearchStep(s, t) == ScanStep(s, t) && FetchGoesOn(ScanStep(s, t).threads[t], p, mode, false)
  {
  }

  lemma InstallGoesOn(s: State, t: nat, p: PageId, mode: AccessMode)
    requires CanRun(s, t) && s.threads[t].Load? && IsInstall(s.threads[t].stage) && Fetching(s.threads[t], p, mode)
    ensures FetchGoesOn(InstallStep(s, t).threads[t], p, mode, false)
  {
    match s.threads[t].stage
    case Reserved(_, _) =>
    case Cleaning(_, _) =>
    case Replacing(_, _, _) =>
    case RemovingOld(_, _) =>
    case Publishing(_) =>
    case Finishing(_) =>
    case Returning(_) =>
  }

  lemma RollbackGoesOn(s: State, t: nat, p: PageId, mode: AccessMode)
    requires CanRun(s, t) && s.threads[t].Load? && IsRollback(s.threads[t].stage) && Fetching(s.threads[t], p, mode)
    ensures FetchGoesOn(RollbackStep(s, t).threads[t], p, mode, true)
  {
  }

  lemma RunGoesOn(s: State, t: nat, p: PageId, mode: AccessMode)
    requires CanRun(s, t) && Fetching(s.threads[t], p, mode)
    ensures FetchGoesOn(RunStep(s, t).threads[t], p, mode, Failing(s.threads[t]))
  {
    if s.threads[t].Load? {
      if IsSearch(s.threads[t].stage) { SearchGoesOn(s, t, p, mode); }
      else if IsInstall(s.threads[t].stage) { InstallGoesOn(s, t, p, mode); }
      else if IsRollback(s.threads[t].stage) { RollbackGoesOn(s, t, p, mode); }
    }
  }

  /** Whatever anyone does, a fetch stays on its page until it replies, and fails exactly after a failed store call. */
  lemma FetchKeepsPage(s: State, a: Action, t: nat, p: PageId, mode: AccessMode)
    requires Enabled(s, a) && t < |s.threads| && Fetching(s.threads[t], p, mode)
    ensures |Apply(s, a).threads| == |s.threads|
    ensures FetchGoesOn(Apply(s, a).threads[t], p, mode, Failing(s.threads[t]) || StoreFails(a, t))
  {
    OthersStay(s, a, t);
    if a.Run? && a.t == t { RunGoesOn(s, t, p, mode); }
  }

  /** A reply that hands out a guard: it is on page `p` and shows the bytes that were written to it last. */
  ghost predicate Delivers(s: State, g: nat, p: PageId) {
    && g in s.guards && s.guards[g].page == p && !s.guards[g].writing && s.guards[g].frame < |s.frames|
    && p in s.history && |s.history[p]| > 0
    && s.frames[s.guards[g].frame].data.bytes == s.history[p][|s.history[p]| - 1]
  }

  lemma ReplyDelivers(s: State, a: Action, t: nat, p: PageId, mode: AccessMode)
    requires Inv(s) && Enabled(s, a) && TearSafe(s, a) && t < |s.threads| && Fetching(s.threads[t], p, mode)
    requires Apply(s, a).threads[t].Idle? && Apply(s, a).threads[t].reply.Guarded?
    ensures Delivers(Apply(s, a), Apply(s, a).threads[t].reply.guard, p)
  {
    var g := Apply(s, a).threads[t].reply.guard;
    OthersStay(s, a, t);
    assert a == Run(t);
    FetchReturnsLatest(s, t, g);
    NoLostUpdate(RunStep(s, t), p);
    NewGuardIsIdle(s, t, g);
  }

  lemma NewGuardIsIdle(s: State, t: nat, g: nat)
    requires Inv(s) && CanRun(s, t) && (s.threads[t].Lookup? || s.threads[t].Load?)
    requires RunStep(s, t).threads[t] == Idle(Guarded(g))
    ensures g in RunStep(s, t).guards && !RunStep(s, t).guards[g].writing
    ensures RunStep(s, t).guards[g].frame < |RunStep(s, t).frames|
  {
    FetchReturnsLatest(s, t, g);
    assert GuardOk(RunStep(s, t), g);
    if s.threads[t].Load? { LoadKeepsGuards(s, t); }
  }

  // ----- a whole fetch -----

  /** In every state before the last of the run thread `t` is fetching `p`. */
  ghost predicate FetchesAlong(s: State, actions: seq<Action>, t: nat, p: PageId, mode: AccessMode)
    decreases |actions|
  {
    actions != [] ==>
      && t < |s.threads| && Fetching(s.threads[t], p, mode)
      && (Enabled(s, actions[0]) ==> FetchesAlong(Apply(s, actions[0]), actions[1..], t, p, mode))
  }

  /** Thread `t` has replied to its fetch of `p`; `failed` tells whether one of its store calls has failed. */
  ghost predicate RepliesTo(s: State, t: nat, p: PageId, failed: bool) {
    && t < |s.threads| && s.threads[t].Idle?
    && match s.threads[t].reply
       case Guarded(g) => !failed && Delivers(s, g, p)
       case Failed(Io) => failed
       case Failed(AllFramesPinned) => !failed
       case _ => false
  }

  /** The fetch under way in `s` is still under way after `actions`, or has a reply in state `mid` that stands. */
  ghost predicate FetchOutcome(s: State, actions: seq<Action>, last: State, t: nat, p: PageId, mode: AccessMode,
                               failed: bool, k: nat, mid: State) {
    && k <= |actions| && SafelyLeads(s, actions[..k], mid) && SafelyLeads(mid, actions[k..], last)
    && t < |mid.threads| && t < |last.threads|
    && FetchesAlong(s, actions[..k], t, p, mode)
    && if Fetching(mid.threads[t], p, mode)
       then k == |actions| && (Failing(mid.threads[t]) <==> failed || SomeStoreFails(actions, t))
       else RepliesTo(mid, t, p, failed || SomeStoreFails(actions[..k], t)) && last.threads[t] == mid.threads[t]
  }

  lemma IdleStays(s: State, a: Action, t: nat)
    requires Enabled(s, a) && t < |s.threads| && s.threads[t].Idle? && !Starts(a, t)
    ensures |Apply(s, a).threads| == |s.threads| && Apply(s, a).threads[t] == s.threads[t]
  {
    OthersStay(s, a, t);
  }

  lemma {:induction false} ReplyStands(s: State, actions: seq<Action>, last: State, t: nat)
    requires SafelyLeads(s, actions, last) && StartsNothing(actions, t) && t < |s.threads| && s.threads[t].Idle?
    ensures t < |last.threads| && last.threads[t] == s.threads[t]
    decreases |actions|
  {
    if actions != [] {
      assert !Starts(actions[0], t);
      IdleStays(s, actions[0], t);
      forall k | 0 <= k < |actions[1..]| ensures actions[1..][k] == actions[k + 1] {}
      ReplyStands(Apply(s, actions[0]), actions[1..], last, t);
    }
  }

  lemma FailsFirstOrLater(actions: seq<Action>, t: nat)
    requires actions != []
    ensures SomeStoreFails(actions, t) <==> StoreFails(actions[0], t) || SomeStoreFails(actions[1..], t)
  {
    if k :| 0 <= k < |actions| && StoreFails(actions[k], t) {
      if k > 0 { assert StoreFails(actions[1..][k - 1], t); }
    }
    if k :| 0 <= k < |actions[1..]| && StoreFails(actions[1..][k], t) { assert StoreFails(actions[k + 1], t); }
  }

  lemma NoneFails(t: nat)
    ensures !SomeStoreFails([], t)
  {
  }

  /** The outcome of the rest of a run is the outcome of the run. */
  lemma OutcomeOneEarlier(s: State, actions: seq<Action>, last: State, t: nat, p: PageId, mode: AccessMode,
                          failed: bool, k: nat, mid: State)
    requires actions != [] && Enabled(s, actions[0]) && TearSafe(s, actions[0])
    requires t < |s.threads| && Fetching(s.threads[t], p, mode)
    requires FetchOutcome(Apply(s, actions[0]), actions[1..], last, t, p, mode, failed || StoreFails(actions[0], t),
                          k, mid)
    ensures FetchOutcome(s, actions, last, t, p, mode, failed, k + 1, mid)
  {
    var rest, first := actions[1..], actions[..k + 1];
    assert first[0] == actions[0] && first[1..] == rest[..k];
    assert actions[k + 1..] == rest[k..];
    FailsFirstOrLater(actions, t);
    FailsFirstOrLater(first, t);
  }

  /** The very first step answers the fetch. */
  lemma OutcomeNow(s: State, actions: seq<Action>, last: State, t: nat, p: PageId, mode: AccessMode, failed: bool)
    requires Inv(s) && actions != [] && Enabled(s, actions[0]) && TearSafe(s, actions[0])
    requires t < |s.threads| && Fetching(s.threads[t], p, mode) && (Failing(s.threads[t]) <==> failed)
    requires SafelyLeads(Apply(s, actions[0]), actions[1..], last) && StartsNothing(actions, t)
    requires |Apply(s, actions[0]).threads| == |s.threads| && !Fetching(Apply(s, actions[0]).threads[t], p, mode)
    ensures FetchOutcome(s, actions, last, t, p, mode, failed, 1, Apply(s, actions[0]))
  {
    var a, next := actions[0], Apply(s, actions[0]);
    FetchKeepsPage(s, a, t, p, mode);
    assert actions[..1] == [a] && [a][1..] == [];
    FailsFirstOrLater([a], t);
    NoneFails(t);
    if next.threads[t].reply.Guarded? { ReplyDelivers(s, a, t, p, mode); }
    forall k | 0 <= k < |actions[1..]| ensures actions[1..][k] == actions[k + 1] {}
    ReplyStands(next, actions[1..], last, t);
  }

  lemma {:induction false} FetchRuns(s: State, actions: seq<Action>, last: State, t: nat, p: PageId, mode: AccessMode,
                                     failed: bool)
    returns (k: nat, mid: State)
    requires Inv(s) && SafelyLeads(s, actions, last) && StartsNothing(actions, t)
    requires t < |s.threads| && Fetching(s.threads[t], p, mode) && (Failing(s.threads[t]) <==> failed)
    ensures FetchOutcome(s, actions, last, t, p, mode, failed, k, mid)
    decreases |actions|
  {
    if actions == [] {
      NoneFails(t);
      k, mid := 0, s;
    } else {
      var a := actions[0];
      FetchKeepsPage(s, a, t, p, mode);
      if Fetching(Apply(s, a).threads[t], p, mode) {
        KeepStep(s, a);
        forall i | 0 <= i < |actions[1..]| ensures actions[1..][i] == actions[i + 1] {}
        k, mid := FetchRuns(Apply(s, a), actions[1..], last, t, p, mode, failed || StoreFails(a, t));
        OutcomeOneEarlier(s, actions, last, t, p, mode, failed, k, mid);
        k := k + 1;
      } else {
        OutcomeNow(s, actions, last, t, p, mode, failed);
        k, mid := 1, Apply(s, a);
      }
    }
  }

  /**
  Main result for fetches, over every run with any other threads: a fetch of `p` works on `p` until
  it replies. It replies with a guard on `p` that shows the last bytes written to `p`, or reports
  an I/O error, which it does if and only if one of its own store calls has failed, or reports
  that all frames are pinned.
  */
  lemma FetchAnswers(s: State, t: nat, p: PageId, mode: AccessMode, actions: seq<Action>, last: State)
    returns (k: nat, mid: State)
    requires Inv(s) && Enabled(s, StartFetch(t, p, mode))
    requires SafelyLeads(Apply(s, StartFetch(t, p, mode)), actions, last) && StartsNothing(actions, t)
    ensures FetchOutcome(Apply(s, StartFetch(t, p, mode)), actions, last, t, p, mode, false, k, mid)
  {
    KeepStep(s, StartFetch(t, p, mode));
    k, mid := FetchRuns(Apply(s, StartFetch(t, p, mode)), actions, last, t, p, mode, false);
  }

  // ----- a whole flush -----

  /** What a flush may have become after one step; `failed` tells of a failed store call. */
  ghost predicate FlushGoesOn(pc: Pc, start: map<PageId, nat>, failed: bool) {
    if pc.Flush? then pc.start == start && (Failing(pc) <==> failed)
    else pc == Idle(if failed then Failed(Io) else Flushed(start))
  }

  lemma LeaveGoesOn(s: State, t: nat)
    requires CanRun(s, t) && s.threads[t].Flush?
    requires s.threads[t].phase.Wrote? || s.threads[t].phase.Releasing? || s.threads[t].phase.Aborting?
    ensures FlushGoesOn(LeaveStep(s, t).threads[t], s.threads[t].start, Failing(s.threads[t]))
  {
  }

  lemma VisitGoesOn(s: State, t: nat)
    requires CanRun(s, t) && s.threads[t].Flush? && s.threads[t].phase.Visiting?
    ensures FlushGoesOn(VisitStep(s, t).threads[t], s.threads[t].start, false)
  {
  }

  lemma FlushRunGoesOn(s: State, t: nat)
    requires CanRun(s, t) && s.threads[t].Flush?
    ensures FlushGoesOn(RunStep(s, t).threads[t], s.threads[t].start, Failing(s.threads[t]))
  {
    match s.threads[t].phase
    case Visiting => VisitGoesOn(s, t);
    case Awaiting(_) =>
    case Pinned(_) =>
    case Locking(_) =>
    case Locked(_) =>
    case _ => LeaveGoesOn(s, t);
  }

  lemma FlushKeepsStart(s: State, a: Action, t: nat)
    requires Enabled(s, a) && t < |s.threads| && s.threads[t].Flush?
    ensures |Apply(s, a).threads| == |s.threads|
    ensures FlushGoesOn(Apply(s, a).threads[t], s.threads[t].start, Failing(s.threads[t]) || StoreFails(a, t))
  {
    OthersStay(s, a, t);
    if a.Run? && a.t == t { FlushRunGoesOn(s, t); }
  }

  lemma {:induction false} FlushRuns(s: State, actions: seq<Action>, last: State, t: nat, start: map<PageId, nat>,
                                     failed: bool)
    returns (k: nat)
    requires Inv(s) && SafelyLeads(s, actions, last) && StartsNothing(actions, t)
    requires t < |s.threads| && s.threads[t].Flush? && s.threads[t].start == start
    requires Failing(s.threads[t]) <==> failed
    ensures k <= |actions| && t < |last.threads|
    ensures FlushGoesOn(last.threads[t], start, failed || SomeStoreFails(actions[..k], t))
    ensures last.threads[t].Flush? ==> k == |actions|
    decreases |actions|
  {
    if actions == [] {
      NoneFails(t);
      k := 0;
    } else {
      var a, rest := actions[0], actions[1..];
      FlushKeepsStart(s, a, t);
      KeepStep(s, a);
      forall i | 0 <= i < |rest| ensures rest[i] == actions[i + 1] {}
      if Apply(s, a).threads[t].Flush? {
        k := FlushRuns(Apply(s, a), rest, last, t, start, failed || StoreFails(a, t));
        k := k + 1;
        assert actions[..k][1..] == rest[..k - 1];
      } else {
        ReplyStands(Apply(s, a), rest, last, t);
        k := 1;
        assert actions[..1][1..] == [];
        NoneFails(t);
      }
      FailsFirstOrLater(actions[..k], t);
    }
  }

  /**
  Over every run: a flush is under way or has replied, and it reports an I/O error if and only if
  one of its own store calls has failed; otherwise its reply carries the versions of its start.
  */
  lemma FlushAnswers(s: State, t: nat, actions: seq<Action>, last: State) returns (k: nat)
    requires Inv(s) && Enabled(s, StartFlush(t))
    requires SafelyLeads(Apply(s, StartFlush(t)), actions, last) && StartsNothing(actions, t)
    ensures k <= |actions| && t < |last.threads|
    ensures FlushGoesOn(last.threads[t], VersionsNow(s), SomeStoreFails(actions[..k], t))
    ensures last.threads[t].Flush? ==> k == |actions|
  {
    KeepStep(s, StartFlush(t));
    k := FlushRuns(Apply(s, StartFlush(t)), actions, last, t, VersionsNow(s), false);
  }
}
