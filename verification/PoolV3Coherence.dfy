/** What the invariant of the concurrent pool means to its clients. */
module PoolV3Coherence {
  // Page contents are never lost, table and frames agree, and a guard stays on its page.

  import opened Storage
  import opened PoolV3
  import opened PoolV3Invariant
  import opened PoolV3Runs
  import PoolV3Pins

  // ----- the page map that the pool implements -----

  /**
  The content of page `p`, read off the concrete state: the frame while the page is resident
  or on its way out and not yet overwritten, the store otherwise.
  */
  ghost function Logical(s: State, p: PageId): Bytes
    requires Inv(s) && p in s.history
  {
    assert PageOk(s, p);
    if p !in s.table then s.store[p].image.bytes
    else
      assert EntryOk(s, p);
      match s.table[p]
      case Ready(i) => s.frames[i].data.bytes
      case Loading(_) => s.store[p].image.bytes
      case Leaving(q) =>
        var pc := s.threads[q.owner];
        assert ThreadOk(s, q.owner);
        if Untouched(pc) then s.frames[HoldOf(pc).value].data.bytes else s.store[p].image.bytes
  }

  /** No update is lost: in every state the content of a page is what was written to it last. */
  lemma NoLostUpdate(s: State, p: PageId)
    requires Inv(s) && p in s.history
    ensures |s.history[p]| > 0 && Logical(s, p) == s.history[p][|s.history[p]| - 1]
  {
    assert PageOk(s, p);
    if p in s.table {
      assert EntryOk(s, p);
      match s.table[p]
      case Ready(i) => assert FrameOk(s, i);
      case Loading(_) =>
      case Leaving(q) => assert ThreadOk(s, q.owner);
    }
  }

  /** The history of a page grows by the bytes of each finished guard write, and by nothing else. */
  lemma HistoryGrows(s: State, a: Action, p: PageId)
    requires Inv(s) && Enabled(s, a) && p in s.history
    ensures p in Apply(s, a).history
    ensures Apply(s, a).history[p] ==
            if a.EndWrite? && s.guards[a.g].page == p then s.history[p] + [a.bytes] else s.history[p]
  {
  }

  /**
  Each step refines a plain page map: finishing a guard write replaces one page, and no other
  step (hit, eviction, write-back, failed I/O with roll-back, flush, drop) changes any page.
  */
  lemma RefinesPageMap(s: State, a: Action, p: PageId)
    requires Inv(s) && Enabled(s, a) && TearSafe(s, a) && p in s.history
    ensures Inv(Apply(s, a)) && p in Apply(s, a).history
    ensures Logical(Apply(s, a), p) ==
            if a.EndWrite? && s.guards[a.g].page == p then a.bytes else Logical(s, p)
  {
    KeepStep(s, a);
    HistoryGrows(s, a, p);
    NoLostUpdate(s, p);
    NoLostUpdate(Apply(s, a), p);
  }

  /** What a guard reads through its frame is its own page's content. */
  lemma GuardReadsItsPage(s: State, g: nat)
    requires Inv(s) && g in s.guards
    ensures s.guards[g].frame < |s.frames| && s.guards[g].page in s.history
    ensures s.frames[s.guards[g].frame].data.bytes == Logical(s, s.guards[g].page)
  {
    assert GuardOk(s, g);
    assert FrameOk(s, s.guards[g].frame);
  }

  /** A fetch that returns Ok returns a fresh guard on the requested page, which shows the latest bytes. */
  lemma FetchReturnsLatest(s: State, t: nat, g: nat)
    requires Inv(s) && CanRun(s, t)
    requires s.threads[t].Lookup? || s.threads[t].Load?
    requires RunStep(s, t).threads[t] == Idle(Guarded(g))
    ensures g !in s.guards && g in RunStep(s, t).guards
    ensures RunStep(s, t).guards[g].page == s.threads[t].page
    ensures Inv(RunStep(s, t)) && s.threads[t].page in RunStep(s, t).history
    ensures RunStep(s, t).frames[RunStep(s, t).guards[g].frame].data.bytes
            == Logical(RunStep(s, t), s.threads[t].page)
  {
    var s' := RunStep(s, t);
    FetchHandsOut(s, t, g);
    PoolV3Pins.FreshGuard(s);
    KeepStep(s, Run(t));
    GuardReadsItsPage(s', g);
  }

  lemma FetchHandsOut(s: State, t: nat, g: nat)
    requires CanRun(s, t)
    requires s.threads[t].Lookup? || s.threads[t].Load?
    requires RunStep(s, t).threads[t] == Idle(Guarded(g))
    ensures g == s.serial && g in RunStep(s, t).guards
    ensures RunStep(s, t).guards[g].page == s.threads[t].page
  {
    if s.threads[t].Load? {
      assert IsInstall(s.threads[t].stage);
      InstallHandsOut(s, t);
    }
  }

  lemma InstallHandsOut(s: State, t: nat)
    requires CanRun(s, t) && s.threads[t].Load? && IsInstall(s.threads[t].stage)
    requires InstallStep(s, t).threads[t].Idle?
    ensures s.threads[t].stage.Returning?
  {
  }

  // ----- table, frames and loaders agree -----

  lemma ReadyIffValid(s: State, p: PageId, i: nat)
    requires Inv(s) && i < |s.frames|
    ensures (p in s.table && s.table[p] == Ready(i)) <==> s.frames[i].state == Valid(p)
  {
    assert FrameOk(s, i);
    if p in s.table { assert EntryOk(s, p); }
  }

  lemma NoPageInTwoFrames(s: State, i: nat, j: nat)
    requires Inv(s) && i < |s.frames| && j < |s.frames|
    requires s.frames[i].state.Valid? && s.frames[i].state == s.frames[j].state
    ensures i == j
  {
    ReadyIffValid(s, s.frames[i].state.page, i);
    ReadyIffValid(s, s.frames[i].state.page, j);
  }

  /** At most one thread loads a page at any time. */
  lemma OneLoaderPerPage(s: State, t: nat, u: nat)
    requires Inv(s) && t < |s.threads| && u < |s.threads|
    requires ClaimOf(s.threads[t]).Some? && ClaimOf(s.threads[t]) == ClaimOf(s.threads[u])
    ensures t == u
  {
    assert ThreadOk(s, t);
    assert ThreadOk(s, u);
  }

  /** A page on its way out names the pending of exactly one frame being evicted. */
  lemma LeavingNamesOneFrame(s: State, p: PageId)
    requires Inv(s) && p in s.table && s.table[p].Leaving?
    ensures exists i :: 0 <= i < |s.frames| && s.frames[i].state == Evicting(s.table[p].pending)
                        && forall j :: 0 <= j < |s.frames| && s.frames[j].state == s.frames[i].state ==> j == i
  {
    assert EntryOk(s, p);
    var q := s.table[p].pending;
    assert ThreadOk(s, q.owner);
    var i := HoldOf(s.threads[q.owner]).value;
    assert s.frames[i].state == Evicting(q);
    forall j | 0 <= j < |s.frames| && s.frames[j].state == s.frames[i].state ensures j == i {
      assert FrameOk(s, j);
    }
  }

  // ----- pins and guards -----

  ghost function FlushPins(s: State, f: nat): set<nat> {
    set t | 0 <= t < |s.threads| && s.threads[t].Flush? && PinOf(s.threads[t]) == Some(f)
  }

  ghost function LoaderPins(s: State, f: nat): set<nat> {
    set t | 0 <= t < |s.threads| && s.threads[t].Load? && PinOf(s.threads[t]) == Some(f)
  }

  /** A frame's pin count is the number of live guards, flush pins and loader reservations on it. */
  lemma PinAccounting(s: State, f: nat)
    requires Inv(s) && f < |s.frames|
    ensures s.frames[f].pin == |GuardPins(s.guards, f)| + |FlushPins(s, f)| + |LoaderPins(s, f)|
    ensures s.frames[f].state.Evicting? ==>
              s.frames[f].pin == 1 && GuardPins(s.guards, f) == {} && FlushPins(s, f) == {}
              && LoaderPins(s, f) == {s.frames[f].state.pending.owner}
  {
    assert PinOk(s, f);
    assert ThreadPins(s.threads, f) == FlushPins(s, f) + LoaderPins(s, f);
    if s.frames[f].state.Evicting? {
      assert FrameOk(s, f);
      EvictingIsAlone(s, f);
    }
  }

  lemma EvictingIsAlone(s: State, f: nat)
    requires Inv(s) && f < |s.frames| && s.frames[f].state.Evicting? && FrameOk(s, f)
    ensures GuardPins(s.guards, f) == {} && FlushPins(s, f) == {}
    ensures LoaderPins(s, f) == {s.frames[f].state.pending.owner}
  {
    var o := s.frames[f].state.pending.owner;
    forall g | g in s.guards ensures s.guards[g].frame != f { assert GuardOk(s, g); }
    forall t | 0 <= t < |s.threads| && PinOf(s.threads[t]) == Some(f) ensures t == o {
      assert ThreadOk(s, t);
    }
    assert PinOf(s.threads[o]) == Some(f);
  }

  /** While a guard lives its frame keeps its page: no step turns the guard to another page's bytes. */
  lemma GuardKeepsItsFrame(s: State, a: Action, g: nat)
    requires Inv(s) && Enabled(s, a) && TearSafe(s, a)
    requires g in s.guards && g in Apply(s, a).guards
    ensures s.guards[g].frame < |s.frames| && |Apply(s, a).frames| == |s.frames|
    ensures Apply(s, a).guards[g].frame == s.guards[g].frame && Apply(s, a).guards[g].page == s.guards[g].page
    ensures s.frames[s.guards[g].frame].state == Valid(s.guards[g].page)
    ensures Apply(s, a).frames[s.guards[g].frame].state == Valid(s.guards[g].page)
  {
    var s' := Apply(s, a);
    KeepStep(s, a);
    assert GuardOk(s, g) && GuardOk(s', g);
    if a.Run? { RunKeepsGuard(s, a.t, g); }
  }

  lemma RunKeepsGuard(s: State, t: nat, g: nat)
    requires Inv(s) && CanRun(s, t) && g in s.guards
    ensures g in RunStep(s, t).guards && RunStep(s, t).guards[g] == s.guards[g]
  {
    PoolV3Pins.FreshGuard(s);
    if s.threads[t].Load? { LoadKeepsGuards(s, t); }
  }

  lemma LoadKeepsGuards(s: State, t: nat)
    requires CanRun(s, t) && s.threads[t].Load?
    ensures LoadStep(s, t).guards ==
            if s.threads[t].stage.Returning? then
              s.guards[s.serial := Guard(s.threads[t].page, s.threads[t].stage.f, false)]
            else s.guards
  {
    if IsInstall(s.threads[t].stage) && !s.threads[t].stage.Returning? { InstallKeepsGuards(s, t); }
  }

  lemma InstallKeepsGuards(s: State, t: nat)
    requires CanRun(s, t) && s.threads[t].Load? && IsInstall(s.threads[t].stage) && !s.threads[t].stage.Returning?
    ensures InstallStep(s, t).guards == s.guards
  {
  }
}
