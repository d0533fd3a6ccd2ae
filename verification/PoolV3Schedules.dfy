/** Particular runs of the concurrent pool, state by state. */
module PoolV3Schedules {
  // Runs are written down as paths of states, joined end to end. The first fetch into an empty pool is one that
  // other modules start from.

  import opened Storage
  import opened PoolV3

  ghost predicate Takes(s: State, a: Action, next: State) {
    Enabled(s, a) && Apply(s, a) == next
  }

  /** `acts` lead along `path`, state by state. */
  ghost predicate Path(path: seq<State>, acts: seq<Action>) {
    |path| == |acts| + 1 && forall k :: 0 <= k < |acts| ==> Takes(path[k], acts[k], path[k + 1])
  }

  /** Frame `g` has pin count zero all along the path. */
  ghost predicate FreeAlong(path: seq<State>, g: nat) {
    forall k :: 0 <= k < |path| ==> g < |path[k].frames| && path[k].frames[g].pin == 0
  }

  lemma Join(path: seq<State>, acts: seq<Action>, more: seq<State>, moreActs: seq<Action>)
    returns (joined: seq<State>, all: seq<Action>)
    requires Path(path, acts) && Path(more, moreActs) && path[|acts|] == more[0]
    ensures all == acts + moreActs && Path(joined, all) && joined[0] == path[0] && joined[|all|] == more[|moreActs|]
    ensures forall g :: FreeAlong(path, g) && FreeAlong(more, g) ==> FreeAlong(joined, g)
  {
    joined, all := path + more[1..], acts + moreActs;
    forall k | 0 <= k < |all| ensures Takes(joined[k], all[k], joined[k + 1]) {
      if k < |acts| { assert Takes(path[k], acts[k], path[k + 1]); }
      else { assert Takes(more[k - |acts|], moreActs[k - |acts|], more[k - |acts| + 1]); }
    }
  }

  lemma {:induction false} PathLeads(path: seq<State>, acts: seq<Action>)
    requires Path(path, acts)
    ensures Leads(path[0], acts, path[|acts|])
    decreases |acts|
  {
    if acts != [] {
      assert Takes(path[0], acts[0], path[1]);
      forall k | 0 <= k < |acts[1..]| ensures Takes(path[1..][k], acts[1..][k], path[1..][k + 1]) {
        assert Takes(path[k + 1], acts[k + 1], path[k + 2]);
      }
      PathLeads(path[1..], acts[1..]);
    }
  }

  // ----- the first fetch -----

  /** The first load of an empty pool, by thread `t` for page `p`, with frame 0 as its victim. */
  ghost function Loading(s: State, t: nat, p: PageId, frame: Frame, entry: Entry, hand: nat, stage: LoadStage): State
    requires t < |s.threads| && |s.frames| > 0
  {
    s.(frames := s.frames[0 := frame], table := map[p := entry], hand := hand, serial := s.serial + 1,
       threads := s.threads[t := Load(p, Normal, Pending(t, s.serial), stage)])
  }

  /** The pool once it is done. */
  ghost function FirstFetched(s: State, t: nat, p: PageId): State
    requires t < |s.threads| && |s.frames| > 0 && p in s.store
  {
    s.(frames := s.frames[0 := Frame(Valid(p), s.store[p].image, 1, true, false)],
       table := map[p := Ready(0)], hand := 1, serial := s.serial + 2,
       threads := s.threads[t := Idle(Guarded(s.serial + 1))],
       guards := map[s.serial + 1 := Guard(p, 0, false)], done := {Pending(t, s.serial)})
  }

  lemma FirstClaim(s: State, t: nat, p: PageId) returns (path: seq<State>, acts: seq<Action>)
    requires Init(s) && t < |s.threads|
    ensures Path(path, acts) && path[0] == s && forall g :: 0 < g < |s.frames| ==> FreeAlong(path, g)
    ensures path[|acts|] == Loading(s, t, p, s.frames[0], PoolV3.Loading(Pending(t, s.serial)), 0, Choosing(0))
  {
    path := [s, Goto(s, t, Lookup(p, Normal)), Goto(s, t, Claiming(p, Normal)),
             Loading(s, t, p, s.frames[0], PoolV3.Loading(Pending(t, s.serial)), 0, Choosing(0))];
    acts := [StartFetch(t, p, Normal), Run(t), Run(t)];
    assert Takes(path[0], acts[0], path[1]);
    assert Takes(path[1], acts[1], path[2]);
    assert Takes(path[2], acts[2], path[3]);
  }

  lemma FirstReserve(s: State, t: nat, p: PageId) returns (path: seq<State>, acts: seq<Action>)
    requires Init(s) && t < |s.threads|
    ensures Path(path, acts) && forall g :: 0 < g < |s.frames| ==> FreeAlong(path, g)
    ensures var q := Pending(t, s.serial);
            && path[0] == Loading(s, t, p, s.frames[0], PoolV3.Loading(q), 0, Choosing(0))
            && path[|acts|] == Loading(s, t, p, s.frames[0].(state := Evicting(q), pin := 1), PoolV3.Loading(q), 1,
                                       Reserved(0, None))
  {
    var q := Pending(t, s.serial);
    var claimed := PoolV3.Loading(q);
    path := [Loading(s, t, p, s.frames[0], claimed, 0, Choosing(0)),
             Loading(s, t, p, s.frames[0], claimed, 1, Looking(0, 0)),
             Loading(s, t, p, s.frames[0], claimed, 1, Reserving(0, 0, None)),
             Loading(s, t, p, s.frames[0].(state := Evicting(q), pin := 1), claimed, 1, Reserved(0, None))];
    acts := [Run(t), Run(t), Run(t)];
    assert Takes(path[0], acts[0], path[1]);
    assert Takes(path[1], acts[1], path[2]);
    assert Takes(path[2], acts[2], path[3]);
  }

  lemma FirstRead(s: State, t: nat, p: PageId) returns (path: seq<State>, acts: seq<Action>)
    requires Init(s) && t < |s.threads| && p in s.store
    ensures Path(path, acts) && forall g :: 0 < g < |s.frames| ==> FreeAlong(path, g)
    ensures var q := Pending(t, s.serial);
            && path[0] == Loading(s, t, p, s.frames[0].(state := Evicting(q), pin := 1), PoolV3.Loading(q), 1,
                                  Reserved(0, None))
            && path[|acts|] == Loading(s, t, p, Frame(Evicting(q), s.store[p].image, 1, true, false),
                                       PoolV3.Loading(q), 1, RemovingOld(0, None))
  {
    var q := Pending(t, s.serial);
    var claimed, held := PoolV3.Loading(q), s.frames[0].(state := Evicting(q), pin := 1);
    var image := s.store[p].image;
    path := [Loading(s, t, p, held, claimed, 1, Reserved(0, None)),
             Loading(s, t, p, held, claimed, 1, Reading(0, None)),
             Loading(s, t, p, held, claimed, 1, Replacing(0, None, image)),
             Loading(s, t, p, Frame(Evicting(q), image, 1, true, false), claimed, 1, RemovingOld(0, None))];
    acts := [Run(t), StoreRead(t, true), Run(t)];
    assert Takes(path[0], acts[0], path[1]);
    assert Takes(path[1], acts[1], path[2]);
    assert Takes(path[2], acts[2], path[3]);
  }

  lemma FirstPublish(s: State, t: nat, p: PageId) returns (path: seq<State>, acts: seq<Action>)
    requires Init(s) && t < |s.threads| && p in s.store
    ensures Path(path, acts) && forall g :: 0 < g < |s.frames| ==> FreeAlong(path, g)
    ensures path[0] == Loading(s, t, p, Frame(Evicting(Pending(t, s.serial)), s.store[p].image, 1, true, false),
                               PoolV3.Loading(Pending(t, s.serial)), 1, RemovingOld(0, None))
    ensures path[|acts|] == Loading(s, t, p, Frame(Valid(p), s.store[p].image, 1, true, false), Ready(0), 1,
                                    Finishing(0))
  {
    var q := Pending(t, s.serial);
    var held := Frame(Evicting(q), s.store[p].image, 1, true, false);
    path := [Loading(s, t, p, held, PoolV3.Loading(q), 1, RemovingOld(0, None)),
             Loading(s, t, p, held, PoolV3.Loading(q), 1, Publishing(0)),
             Loading(s, t, p, held.(state := Valid(p)), Ready(0), 1, Finishing(0))];
    acts := [Run(t), Run(t)];
    assert Takes(path[0], acts[0], path[1]);
    assert Takes(path[1], acts[1], path[2]);
  }

  lemma FirstReturn(s: State, t: nat, p: PageId) returns (path: seq<State>, acts: seq<Action>)
    requires Init(s) && t < |s.threads| && p in s.store
    ensures Path(path, acts) && forall g :: 0 < g < |s.frames| ==> FreeAlong(path, g)
    ensures path[0] == Loading(s, t, p, Frame(Valid(p), s.store[p].image, 1, true, false), Ready(0), 1, Finishing(0))
    ensures path[|acts|] == FirstFetched(s, t, p)
  {
    var full := Frame(Valid(p), s.store[p].image, 1, true, false);
    path := [Loading(s, t, p, full, Ready(0), 1, Finishing(0)),
             Loading(s, t, p, full, Ready(0), 1, Returning(0)).(done := {Pending(t, s.serial)}),
             FirstFetched(s, t, p)];
    acts := [Run(t), Run(t)];
    assert Takes(path[0], acts[0], path[1]);
    assert Takes(path[1], acts[1], path[2]);
  }

  /** In an empty pool a thread that fetches a page alone gets it in frame 0 and touches no other frame. */
  lemma FirstFetch(s: State, t: nat, p: PageId) returns (path: seq<State>, acts: seq<Action>)
    requires Init(s) && t < |s.threads| && p in s.store
    ensures Path(path, acts) && path[0] == s && path[|acts|] == FirstFetched(s, t, p)
    ensures forall g :: 0 < g < |s.frames| ==> FreeAlong(path, g)
  {
    path, acts := FirstClaim(s, t, p);
    var more, moreActs := FirstReserve(s, t, p);
    path, acts := Join(path, acts, more, moreActs);
    more, moreActs := FirstRead(s, t, p);
    path, acts := Join(path, acts, more, moreActs);
    more, moreActs := FirstPublish(s, t, p);
    path, acts := Join(path, acts, more, moreActs);
    more, moreActs := FirstReturn(s, t, p);
    path, acts := Join(path, acts, more, moreActs);
  }
}
