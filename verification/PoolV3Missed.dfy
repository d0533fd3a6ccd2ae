/** A search that does not run alone can miss an unpinned frame. */
module PoolV3Missed {
  // All searches advance one shared hand. Other searches that tick in between keep the hand away from a frame, and
  // the fetch fails with AllFramesPinned although that frame has pin count zero from the first state to the last.

  import opened Storage
  import opened PoolV3
  import opened PoolV3Schedules

  /** Frame 0 is pinned, frame 1 empty; thread `t` has made `k` looks; the hand is at frame 1. */
  ghost predicate Missing(s: State, t: nat, k: nat) {
    && |s.frames| == 2 && s.frames[0].state.Valid? && s.frames[0].pin > 0
    && s.frames[1].state == Empty && s.frames[1].pin == 0
    && t < |s.threads| && s.threads[t].Load? && s.threads[t].stage == Choosing(k)
    && s.hand == 2 * k + 1 && s.hand + 2 < USIZE
  }

  ghost predicate Idles(s: State, u: nat) {
    u < |s.threads| && s.threads[u].Idle?
  }

  /** Thread `u` has become the loader of page `y`. */
  ghost function Claimed(s: State, u: nat, y: PageId): State
    requires u < |s.threads|
  {
    var q := Pending(u, s.serial);
    Goto(s, u, Load(y, Normal, q, Choosing(0))).(table := s.table[y := Loading(q)], serial := s.serial + 1)
  }

  lemma Claims(s: State, u: nat, y: PageId) returns (path: seq<State>, acts: seq<Action>)
    requires Idles(s, u) && y !in s.table && |s.frames| == 2 && s.frames[1].pin == 0
    ensures Path(path, acts) && path[0] == s && path[|acts|] == Claimed(s, u, y) && FreeAlong(path, 1)
  {
    path := [s, Goto(s, u, Lookup(y, Normal)), Goto(s, u, Claiming(y, Normal)), Claimed(s, u, y)];
    acts := [StartFetch(u, y, Normal), Run(u), Run(u)];
    assert Takes(path[0], acts[0], path[1]);
    assert Takes(path[1], acts[1], path[2]);
    assert Takes(path[2], acts[2], path[3]);
  }

  /** Then it ticks: the hand leaves frame 1. */
  ghost function Ticked(s: State, u: nat, y: PageId): State
    requires u < |s.threads|
  {
    GotoStage(Claimed(s, u, y), u, Looking(0, 1)).(hand := s.hand + 1)
  }

  lemma OtherTicks(s: State, t: nat, k: nat, u: nat, y: PageId) returns (path: seq<State>, acts: seq<Action>)
    requires Missing(s, t, k) && Idles(s, u) && y !in s.table
    ensures Path(path, acts) && path[0] == s && path[|acts|] == Ticked(s, u, y) && FreeAlong(path, 1)
  {
    path, acts := Claims(s, u, y);
    var claimed, ticked := Claimed(s, u, y), Ticked(s, u, y);
    assert Takes(claimed, Run(u), ticked);
    path, acts := Join(path, acts, [claimed, ticked], [Run(u)]);
  }

  /** The hand is on frame 0, which is pinned, and thread `t` is at look `k`. */
  ghost predicate LooksAtPinned(s: State, t: nat, stage: LoadStage) {
    && |s.frames| == 2 && s.frames[0].state.Valid? && s.frames[0].pin > 0 && s.frames[1].pin == 0
    && t < |s.threads| && s.threads[t].Load? && s.threads[t].stage == stage
  }

  lemma Looks(s: State, t: nat, k: nat) returns (path: seq<State>, acts: seq<Action>)
    requires LooksAtPinned(s, t, Choosing(k)) && k < 4 && s.hand == 2 * k + 2 && s.hand + 1 < USIZE
    ensures Path(path, acts) && path[0] == s && FreeAlong(path, 1)
    ensures path[|acts|] == GotoStage(s, t, Reserving(k, 0, Some(s.frames[0].state.page))).(hand := s.hand + 1)
  {
    var moved := s.(hand := s.hand + 1);
    path := [s, GotoStage(moved, t, Looking(k, 0)), GotoStage(moved, t, Reserving(k, 0, Some(s.frames[0].state.page)))];
    acts := [Run(t), Run(t)];
    assert Takes(path[0], acts[0], path[1]);
    assert Takes(path[1], acts[1], path[2]);
  }

  lemma IsRefused(s: State, t: nat, k: nat) returns (path: seq<State>, acts: seq<Action>)
    requires |s.frames| == 2 && s.frames[0].state.Valid?
    requires LooksAtPinned(s, t, Reserving(k, 0, Some(s.frames[0].state.page)))
    ensures Path(path, acts) && path[0] == s && FreeAlong(path, 1) && path[|acts|] == GotoStage(s, t, Choosing(k + 1))
  {
    path, acts := [s, GotoStage(s, t, Choosing(k + 1))], [Run(t)];
    assert Takes(path[0], acts[0], path[1]);
  }

  lemma LooksInVain(s: State, t: nat, k: nat) returns (path: seq<State>, acts: seq<Action>)
    requires LooksAtPinned(s, t, Choosing(k)) && k < 4 && s.hand == 2 * k + 2 && s.hand + 1 < USIZE
    ensures Path(path, acts) && path[0] == s && FreeAlong(path, 1)
    ensures path[|acts|] == GotoStage(s, t, Choosing(k + 1)).(hand := s.hand + 1)
  {
    path, acts := Looks(s, t, k);
    var more, moreActs := IsRefused(path[|acts|], t, k);
    path, acts := Join(path, acts, more, moreActs);
  }

  /** What a round leaves for the next one. */
  ghost predicate Next(s: State, r: State, t: nat, k: nat, u: nat, y: PageId) {
    && Missing(r, t, k + 1) && r.table.Keys == s.table.Keys + {y} && |r.threads| == |s.threads|
    && forall v :: Idles(s, v) && v != u ==> Idles(r, v)
  }

  lemma Round(s: State, t: nat, k: nat, u: nat, y: PageId) returns (path: seq<State>, acts: seq<Action>)
    requires Missing(s, t, k) && k < 4 && Idles(s, u) && y !in s.table
    ensures Path(path, acts) && path[0] == s && FreeAlong(path, 1) && Next(s, path[|acts|], t, k, u, y)
  {
    path, acts := OtherTicks(s, t, k, u, y);
    var more, moreActs := LooksInVain(Ticked(s, u, y), t, k);
    path, acts := Join(path, acts, more, moreActs);
  }

  lemma {:induction false} Rounds(s: State, t: nat, k: nat, us: seq<nat>, ys: seq<PageId>)
    returns (path: seq<State>, acts: seq<Action>)
    requires Missing(s, t, k) && k + |us| == 4 && |ys| == |us|
    requires forall i :: 0 <= i < |us| ==> Idles(s, us[i]) && ys[i] !in s.table
    requires forall i, j :: 0 <= i < j < |us| ==> us[i] != us[j] && ys[i] != ys[j]
    ensures Path(path, acts) && path[0] == s && FreeAlong(path, 1) && Missing(path[|acts|], t, 4)
    decreases |us|
  {
    if us == [] { return [s], []; }
    path, acts := Round(s, t, k, us[0], ys[0]);
    var more, moreActs := Rounds(path[|acts|], t, k + 1, us[1..], ys[1..]);
    path, acts := Join(path, acts, more, moreActs);
  }

  lemma Scans(s: State, t: nat) returns (path: seq<State>, acts: seq<Action>)
    requires Missing(s, t, 4)
    ensures Path(path, acts) && path[0] == s && FreeAlong(path, 1) && path[|acts|] == GotoStage(s, t, Scanning(1))
  {
    path := [s, GotoStage(s, t, Scanning(0)), GotoStage(s, t, Scanning(1))];
    acts := [Run(t), Run(t)];
    assert Takes(path[0], acts[0], path[1]);
    assert Takes(path[1], acts[1], path[2]);
  }

  lemma ScansOn(s: State, t: nat) returns (path: seq<State>, acts: seq<Action>)
    requires |s.frames| == 2 && s.frames[1].pin == 0 && !s.frames[1].state.Evicting?
    requires t < |s.threads| && s.threads[t].Load? && s.threads[t].stage == Scanning(1)
    ensures Path(path, acts) && path[0] == s && FreeAlong(path, 1) && path[|acts|] == GotoStage(s, t, GivingUp)
  {
    path := [s, GotoStage(s, t, Scanning(2)), GotoStage(s, t, GivingUp)];
    acts := [Run(t), Run(t)];
    assert Takes(path[0], acts[0], path[1]);
    assert Takes(path[1], acts[1], path[2]);
  }

  lemma GivesUp(s: State, t: nat) returns (path: seq<State>, acts: seq<Action>)
    requires |s.frames| == 2 && s.frames[1].pin == 0
    requires t < |s.threads| && s.threads[t].Load? && s.threads[t].stage.GivingUp?
    ensures Path(path, acts) && path[0] == s && FreeAlong(path, 1)
    ensures t < |path[|acts|].threads| && path[|acts|].threads[t] == Idle(Failed(AllFramesPinned))
  {
    var given := GotoStage(s, t, GivenUp).(table := s.table - {s.threads[t].page});
    path := [s, given, FinishStep(given, t, Idle(Failed(AllFramesPinned)))];
    acts := [Run(t), Run(t)];
    assert Takes(path[0], acts[0], path[1]);
    assert Takes(path[1], acts[1], path[2]);
  }

  /**
  In a pool of two frames with six threads and six pages: thread 0 fetches a page and keeps its
  guard, and thread 1's fetch fails with AllFramesPinned while frame 1 is unpinned in every state
  of the run.
  */
  lemma SpuriousAllFramesPinned(s: State, ps: seq<PageId>) returns (path: seq<State>, acts: seq<Action>)
    requires Init(s) && |s.frames| == 2 && |s.threads| >= 6
    requires |ps| == 6 && forall i, j :: 0 <= i < j < 6 ==> ps[i] != ps[j]
    requires ps[0] in s.store
    ensures Path(path, acts) && path[0] == s && FreeAlong(path, 1)
    ensures |path[|acts|].threads| > 1 && path[|acts|].threads[1] == Idle(Failed(AllFramesPinned))
  {
    path, acts := FirstFetch(s, 0, ps[0]);
    var more, moreActs := Claims(path[|acts|], 1, ps[1]);
    path, acts := Join(path, acts, more, moreActs);
    more, moreActs := Rounds(path[|acts|], 1, 0, [2, 3, 4, 5], ps[2..]);
    path, acts := Join(path, acts, more, moreActs);
    more, moreActs := Scans(path[|acts|], 1);
    path, acts := Join(path, acts, more, moreActs);
    more, moreActs := ScansOn(path[|acts|], 1);
    path, acts := Join(path, acts, more, moreActs);
    more, moreActs := GivesUp(path[|acts|], 1);
    path, acts := Join(path, acts, more, moreActs);
  }
}
