/**
Frame lemmas for the invariant of the concurrent pool: what each entity's part of it depends on.

The invariant is a conjunction over frames, table entries, pages, threads and guards, and each
conjunct looks only at the entities that its own entity names: a frame at its page's entry or its
loader, an entry at its frame or its loader, a thread at what it owns or waits for. The local
lemmas below state these dependencies. From them follow the frame lemmas for whole steps: for a
quiet step, which changes nothing that any other entity looks at; for a private step of a loader,
which changes only its victim, its two pages and its pending; and for the steps that claim a page,
reserve a victim, or change a resident page through a guard or a flush. A step's own proof then
deals with the one thread, frame or page that it changes, and with nothing else.
*/
module PoolV3Steps {
  import opened Storage
  import opened PoolV3
  import opened PoolV3Invariant

  // ----- what each entity's part of the invariant depends on -----

  /** A live load is still live in `s'`, and its owner holds the same victim. */
  ghost predicate StillHolds(s: State, s': State, q: Pending) {
    Live(s, q) ==> Live(s', q) && HoldOf(s'.threads[q.owner]) == HoldOf(s.threads[q.owner])
  }

  /** A live load is still live in `s'`, and the marks its owner has made still stand. */
  ghost predicate StillMarked(s: State, s': State, q: Pending) {
    Live(s, q) ==>
      && Live(s', q)
      && ClaimOf(s'.threads[q.owner]) == ClaimOf(s.threads[q.owner])
      && (PriorOf(s.threads[q.owner]).Some? ==> PriorOf(s'.threads[q.owner]) == PriorOf(s.threads[q.owner]))
  }

  /** Nothing that is known about page `x` has been lost. */
  ghost predicate SamePage(s: State, s': State, x: PageId) {
    && (x in s.history <==> x in s'.history)
    && (x in s.history ==> s'.history[x] == s.history[x])
    && (Stored(s, x) ==> Stored(s', x))
  }

  ghost predicate SameEntry(s: State, s': State, x: PageId) {
    (x in s.table <==> x in s'.table) && (x in s.table ==> s'.table[x] == s.table[x])
  }

  ghost predicate SameFrame(s: State, s': State, f: nat) {
    && f < |s.frames| && f < |s'.frames|
    && s'.frames[f].state == s.frames[f].state
    && s'.frames[f].data == s.frames[f].data
    && s'.frames[f].dirty == s.frames[f].dirty
  }

  lemma LocalFrame(s: State, s': State, f: nat)
    requires f < |s.frames| && FrameOk(s, f) && SameFrame(s, s', f)
    requires s.frames[f].state.Valid? ==>
               SamePage(s, s', s.frames[f].state.page) && SameEntry(s, s', s.frames[f].state.page)
    requires s.frames[f].state.Evicting? ==> StillHolds(s, s', s.frames[f].state.pending)
    ensures FrameOk(s', f)
  {
  }

  lemma LocalEntry(s: State, s': State, p: PageId)
    requires p in s.table && EntryOk(s, p) && SameEntry(s, s', p)
    requires s.table[p].Ready? ==> SameFrame(s, s', s.table[p].index)
    requires !s.table[p].Ready? ==> StillMarked(s, s', s.table[p].pending)
    ensures EntryOk(s', p)
  {
  }

  lemma LocalVictim(s: State, s': State, pc: Pc)
    requires pc.Load? && (HoldOf(pc).Some? ==> SameFrame(s, s', HoldOf(pc).value)) && VictimOk(s, pc)
    requires ClaimOf(pc).Some? ==> SamePage(s, s', pc.page)
    requires PriorOf(pc).Some? ==> SamePage(s, s', PriorOf(pc).value)
    ensures VictimOk(s', pc)
  {
  }

  lemma LocalLoader(s: State, s': State, u: nat)
    requires u < |s.threads| && u < |s'.threads| && s'.threads[u] == s.threads[u]
    requires s.threads[u].Load? && LoaderOk(s, u)
    requires s'.serial >= s.serial && |s'.frames| == |s.frames|
    requires s.threads[u].pending in s'.done <==> s.threads[u].pending in s.done
    requires ClaimOf(s.threads[u]).Some? ==>
               SameEntry(s, s', s.threads[u].page) && SamePage(s, s', s.threads[u].page)
    requires PriorOf(s.threads[u]).Some? ==>
               SameEntry(s, s', PriorOf(s.threads[u]).value) && SamePage(s, s', PriorOf(s.threads[u]).value)
    requires HoldOf(s.threads[u]).Some? ==> SameFrame(s, s', HoldOf(s.threads[u]).value)
    requires s.threads[u].stage.Finishing? || s.threads[u].stage.Returning? || s.threads[u].stage.Unpinning? ==>
               s'.frames[s.threads[u].stage.f].state == s.frames[s.threads[u].stage.f].state
    requires s.threads[u].stage.AwaitingVictim? ==> Awaited(s', s.threads[u].stage.on)
    ensures ThreadOk(s', u)
  {
    LocalVictim(s, s', s.threads[u]);
  }

  lemma LocalFlusher(s: State, s': State, u: nat)
    requires u < |s.threads| && u < |s'.threads| && s'.threads[u] == s.threads[u]
    requires s.threads[u].Flush? && FlusherOk(s, u) && |s'.frames| == |s.frames|
    requires s.threads[u].phase.Awaiting? ==> Awaited(s', s.threads[u].phase.on)
    requires PinOf(s.threads[u]).Some? ==>
               s'.frames[s.threads[u].i].state == s.frames[s.threads[u].i].state
    requires s.threads[u].phase.Wrote? ==> SamePage(s, s', s.threads[u].phase.page)
    ensures ThreadOk(s', u)
  {
  }

  // ----- steps that change neither contents nor marks -----

  /** The two program counters own the same load, victim and marks. */
  ghost predicate SameRole(pc: Pc, pc': Pc) {
    && PendingOf(pc) == PendingOf(pc') && HoldOf(pc) == HoldOf(pc')
    && ClaimOf(pc) == ClaimOf(pc') && PriorOf(pc) == PriorOf(pc')
    && (Committed(pc) && PendingOf(pc).Some? ==> Committed(pc'))
  }

  /**
  `s'` differs from `s` in the program counter of `t`, in pins, reference bits and the hand, and
  in guards that came or went; nothing that other threads rely on has moved.
  */
  ghost predicate Quiet(s: State, s': State, t: nat)
  {
    && s'.store == s.store && s'.table == s.table && s'.history == s.history && s'.done == s.done
    && s'.serial >= s.serial && |s'.frames| == |s.frames| && |s'.threads| == |s.threads|
    && (forall f :: 0 <= f < |s.frames| ==>
          && s'.frames[f].state == s.frames[f].state
          && s'.frames[f].data == s.frames[f].data
          && s'.frames[f].dirty == s.frames[f].dirty)
    && (forall u :: 0 <= u < |s.threads| && u != t ==> s'.threads[u] == s.threads[u])
    && (forall g :: g in s'.guards ==>
          || (g in s.guards && s'.guards[g] == s.guards[g])
          || (&& g < s'.serial && !s'.guards[g].writing && s'.guards[g].frame < |s.frames|
              && s.frames[s'.guards[g].frame].state == Valid(s'.guards[g].page)))
  }

  lemma KeepQuiet(s: State, s': State, t: nat)
    requires Core(s) && Quiet(s, s', t)
    requires t < |s.threads| ==> SameRole(s.threads[t], s'.threads[t])
    requires t < |s.threads| ==>
               forall f :: LocksData(s'.threads[t], f) ==> LocksData(s.threads[t], f) || !Writing(s, f)
    requires t < |s.threads| ==> ThreadOk(s', t)
    ensures Core(s')
  {
    forall f | 0 <= f < |s'.frames| ensures FrameOk(s', f) { QuietFrame(s, s', t, f); }
    forall p | p in s'.table ensures EntryOk(s', p) { QuietEntry(s, s', t, p); }
    forall p | p in s'.history ensures PageOk(s', p) { assert PageOk(s, p); }
    forall u | 0 <= u < |s'.threads| ensures ThreadOk(s', u) { if u != t { QuietThread(s, s', t, u); } }
    forall g | g in s'.guards ensures GuardOk(s', g) {
      if g in s.guards && s.guards[g] == s'.guards[g] {
        assert GuardOk(s, g);
        if s.guards[g].writing { NoNewLock(s, s', t, g); }
      }
    }
    forall g, h |
      g in s'.guards && h in s'.guards && s'.guards[g].writing && s'.guards[h].writing
      && s'.guards[g].frame == s'.guards[h].frame
      ensures g == h
    {
      assert s.guards[g] == s'.guards[g] && s.guards[h] == s'.guards[h];
    }
    assert OneWriter(s');
  }

  lemma QuietFrame(s: State, s': State, t: nat, f: nat)
    requires Core(s) && Quiet(s, s', t) && f < |s.frames|
    requires t < |s.threads| ==> SameRole(s.threads[t], s'.threads[t])
    ensures FrameOk(s', f)
  {
    assert FrameOk(s, f);
    LocalFrame(s, s', f);
  }

  lemma QuietEntry(s: State, s': State, t: nat, p: PageId)
    requires Core(s) && Quiet(s, s', t) && p in s.table
    requires t < |s.threads| ==> SameRole(s.threads[t], s'.threads[t])
    ensures EntryOk(s', p)
  {
    assert EntryOk(s, p);
    LocalEntry(s, s', p);
  }

  lemma QuietThread(s: State, s': State, t: nat, u: nat)
    requires Core(s) && Quiet(s, s', t) && u < |s.threads| && u != t
    requires t < |s.threads| ==> SameRole(s.threads[t], s'.threads[t])
    ensures ThreadOk(s', u)
  {
    assert ThreadOk(s, u);
    if s.threads[u].Load? { LocalLoader(s, s', u); }
    else if s.threads[u].Flush? { LocalFlusher(s, s', u); }
  }

  lemma NoNewLock(s: State, s': State, t: nat, g: nat)
    requires Quiet(s, s', t)
    requires t < |s.threads| ==>
               forall f :: LocksData(s'.threads[t], f) ==> LocksData(s.threads[t], f) || !Writing(s, f)
    requires g in s.guards && s.guards[g].writing && !ReadLocked(s, s.guards[g].frame)
    ensures !ReadLocked(s', s.guards[g].frame)
  {
    var f := s.guards[g].frame;
    assert Writing(s, f);
    forall u | 0 <= u < |s'.threads| ensures !LocksData(s'.threads[u], f) {
      assert !LocksData(s.threads[u], f);
    }
  }

  // ----- steps on what a loader owns -----

  ghost function Owned<T>(o: Option<T>): set<T> {
    if o.Some? then {o.value} else {}
  }

  /** The pages whose table entries carry the marks of the loader `pc`. */
  ghost function OwnPages(pc: Pc): set<PageId> {
    Owned(ClaimOf(pc)) + Owned(PriorOf(pc))
  }

  /** `s'` differs from `s` only in the loader `t`, its victim frame, its pages and its pending. */
  ghost predicate Private(s: State, s': State, t: nat)
    requires t < |s.threads|
  {
    var pc := s.threads[t];
    && pc.Load? && |s'.frames| == |s.frames| && |s'.threads| == |s.threads|
    && (forall u :: 0 <= u < |s.threads| && u != t ==> s'.threads[u] == s.threads[u])
    && (forall f :: 0 <= f < |s.frames| && HoldOf(pc) != Some(f) ==> s'.frames[f] == s.frames[f])
    && s'.history == s.history && s'.store.Keys == s.store.Keys
    && (forall p :: p !in OwnPages(pc) ==> SameEntry(s, s', p))
    && (forall p :: p in s.store && p !in OwnPages(pc) ==> s'.store[p] == s.store[p])
    && s'.guards == s.guards && s'.serial == s.serial
    && (s'.done == s.done || s'.done == s.done + {pc.pending})
  }

  /** The loader still answers for its pending, unless it has just finished it. */
  ghost predicate StillOwner(s: State, s': State, t: nat)
    requires t < |s.threads| && t < |s'.threads| && s.threads[t].Load?
  {
    var pc, pc' := s.threads[t], s'.threads[t];
    && !LocksAny(pc')
    && if s'.done == s.done then PendingOf(pc') == PendingOf(pc) && (Committed(pc) ==> Committed(pc'))
       else OwnPages(pc) == {} && HoldOf(pc) == None
  }

  ghost predicate LocksAny(pc: Pc) {
    pc.Flush? && (pc.phase.Locked? || pc.phase.Wrote?)
  }

  lemma KeepPrivate(s: State, s': State, t: nat)
    requires Core(s) && t < |s.threads| && Private(s, s', t) && StillOwner(s, s', t)
    requires ThreadOk(s', t)
    requires forall p :: p in OwnPages(s.threads[t]) ==>
                           (p in s'.table ==> EntryOk(s', p)) && (p in s'.history ==> PageOk(s', p))
    requires HoldOf(s.threads[t]).Some? ==>
               HoldOf(s.threads[t]).value < |s'.frames| && FrameOk(s', HoldOf(s.threads[t]).value)
    ensures Core(s')
  {
    var pc := s.threads[t];
    assert ThreadOk(s, t);
    forall f | 0 <= f < |s'.frames| ensures FrameOk(s', f) { if HoldOf(pc) != Some(f) { PrivateFrame(s, s', t, f); } }
    forall p | p in s'.table ensures EntryOk(s', p) { if p !in OwnPages(pc) { PrivateEntry(s, s', t, p); } }
    forall p | p in s'.history ensures PageOk(s', p) { assert PageOk(s, p); }
    forall u | 0 <= u < |s'.threads| ensures ThreadOk(s', u) { if u != t { PrivateThread(s, s', t, u); } }
    forall g | g in s'.guards ensures GuardOk(s', g) {
      assert GuardOk(s, g);
      assert HoldOf(pc) != Some(s.guards[g].frame);
      if s.guards[g].writing { PrivateLock(s, s', t, s.guards[g].frame); }
    }
  }

  lemma PrivateLock(s: State, s': State, t: nat, f: nat)
    requires t < |s.threads| && Private(s, s', t) && StillOwner(s, s', t) && !ReadLocked(s, f)
    ensures !ReadLocked(s', f)
  {
    forall u | 0 <= u < |s'.threads| ensures !LocksData(s'.threads[u], f) {
      assert !LocksData(s.threads[u], f);
    }
  }

  lemma PrivateFrame(s: State, s': State, t: nat, f: nat)
    requires Core(s) && t < |s.threads| && Private(s, s', t) && StillOwner(s, s', t)
    requires f < |s.frames| && HoldOf(s.threads[t]) != Some(f)
    ensures FrameOk(s', f)
  {
    assert ThreadOk(s, t);
    assert FrameOk(s, f);
    LocalFrame(s, s', f);
  }

  lemma PrivateEntry(s: State, s': State, t: nat, p: PageId)
    requires Core(s) && t < |s.threads| && Private(s, s', t) && StillOwner(s, s', t)
    requires p in s.table && p !in OwnPages(s.threads[t])
    ensures EntryOk(s', p)
  {
    assert ThreadOk(s, t);
    assert EntryOk(s, p);
    LocalEntry(s, s', p);
  }

  lemma PrivateAwaited(s: State, s': State, t: nat, q: Pending)
    requires t < |s.threads| && Private(s, s', t) && StillOwner(s, s', t)
    ensures Awaited(s, q) ==> Awaited(s', q)
    ensures q in s.done || Live(s, q) ==> q in s'.done || Live(s', q)
  {
  }

  /** Two loaders never share a page or a victim. */
  lemma LoadersApart(s: State, t: nat, u: nat)
    requires t < |s.threads| && u < |s.threads| && t != u
    requires s.threads[t].Load? && LoaderOk(s, t) && s.threads[u].Load? && LoaderOk(s, u)
    ensures OwnPages(s.threads[t]) !! OwnPages(s.threads[u])
    ensures HoldOf(s.threads[t]).Some? ==> HoldOf(s.threads[t]) != HoldOf(s.threads[u])
    ensures s.threads[u].stage.Finishing? || s.threads[u].stage.Returning? || s.threads[u].stage.Unpinning? ==>
              HoldOf(s.threads[t]) != Some(s.threads[u].stage.f)
  {
  }

  lemma PrivateLoader(s: State, s': State, t: nat, u: nat)
    requires t < |s.threads| && Private(s, s', t) && StillOwner(s, s', t) && LoaderOk(s, t)
    requires u < |s.threads| && u != t && s.threads[u].Load? && LoaderOk(s, u)
    ensures ThreadOk(s', u)
  {
    var pc := s.threads[u];
    LoadersApart(s, t, u);
    if pc.stage.AwaitingVictim? { PrivateAwaited(s, s', t, pc.stage.on); }
    if ClaimOf(pc).Some? { assert pc.page in OwnPages(pc); }
    if PriorOf(pc).Some? { assert PriorOf(pc).value in OwnPages(pc); }
    LocalLoader(s, s', u);
  }

  lemma PrivateThread(s: State, s': State, t: nat, u: nat)
    requires Core(s) && t < |s.threads| && Private(s, s', t) && StillOwner(s, s', t)
    requires u < |s.threads| && u != t
    ensures ThreadOk(s', u)
  {
    assert ThreadOk(s, t);
    assert ThreadOk(s, u);
    match s.threads[u]
    case Waiting(_, _, q) => PrivateAwaited(s, s', t, q);
    case Load(_, _, _, _) => PrivateLoader(s, s', t, u);
    case Flush(_, _, _) => PrivateFlusher(s, s', t, u);
    case _ =>
  }

  lemma PrivateFlusher(s: State, s': State, t: nat, u: nat)
    requires t < |s.threads| && Private(s, s', t) && StillOwner(s, s', t) && LoaderOk(s, t)
    requires u < |s.threads| && u != t && s.threads[u].Flush? && FlusherOk(s, u)
    requires PinOf(s.threads[u]).Some? ==> FrameOk(s, s.threads[u].i)
    ensures ThreadOk(s', u)
  {
    var pc := s.threads[u];
    if pc.phase.Awaiting? { PrivateAwaited(s, s', t, pc.phase.on); }
    LocalFlusher(s, s', u);
  }

  // ----- taking ownership: claiming a page, reserving a victim -----

  lemma KeepClaim(s: State, t: nat)
    requires Core(s) && CanRun(s, t) && s.threads[t].Claiming? && s.threads[t].page !in s.table
    ensures Core(ClaimStep(s, t))
  {
    var s' := ClaimStep(s, t);
    var p := s.threads[t].page;
    forall f | 0 <= f < |s'.frames| ensures FrameOk(s', f) { assert FrameOk(s, f); LocalFrame(s, s', f); }
    forall x | x in s'.table ensures EntryOk(s', x) {
      if x != p { assert EntryOk(s, x); LocalEntry(s, s', x); }
    }
    forall x | x in s'.history ensures PageOk(s', x) { assert PageOk(s, x); }
    forall u | 0 <= u < |s'.threads| ensures ThreadOk(s', u) { if u != t { ClaimThread(s, t, u); } }
    forall g | g in s'.guards ensures GuardOk(s', g) {
      assert GuardOk(s, g);
      if s.guards[g].writing { LocksShrink(s, s', s.guards[g].frame); }
    }
  }

  lemma ClaimThread(s: State, t: nat, u: nat)
    requires Core(s) && CanRun(s, t) && s.threads[t].Claiming? && s.threads[t].page !in s.table
    requires u < |s.threads| && u != t
    ensures ThreadOk(ClaimStep(s, t), u)
  {
    var s' := ClaimStep(s, t);
    assert ThreadOk(s, u);
    match s.threads[u]
    case Load(_, _, _, _) => LocalLoader(s, s', u);
    case Flush(_, _, _) => LocalFlusher(s, s', u);
    case _ =>
  }

  lemma LocksShrink(s: State, s': State, f: nat)
    requires |s'.threads| == |s.threads| && !ReadLocked(s, f)
    requires forall u :: 0 <= u < |s.threads| ==> LocksData(s'.threads[u], f) ==> LocksData(s.threads[u], f)
    ensures !ReadLocked(s', f)
  {
    forall u | 0 <= u < |s'.threads| ensures !LocksData(s'.threads[u], f) {
      assert !LocksData(s.threads[u], f);
    }
  }

  ghost predicate CanReserve(s: State, t: nat) {
    && Core(s) && CanRun(s, t) && s.threads[t].Load? && s.threads[t].stage.Reserving?
    && Reservable(s, s.threads[t].stage.f, s.threads[t].stage.snapshot)
    && !(s.threads[t].stage.k < |s.frames| && s.frames[s.threads[t].stage.f].referenced)
    && PinOk(s, s.threads[t].stage.f)
  }

  lemma KeepReserve(s: State, t: nat)
    requires CanReserve(s, t)
    ensures Core(ReserveStep(s, t))
  {
    var s' := ReserveStep(s, t);
    var Reserving(_, v, snapshot) := s.threads[t].stage;
    assert ThreadOk(s, t);
    assert FrameOk(s, v);
    UnpinnedFrame(s, v);
    forall f | 0 <= f < |s'.frames| ensures FrameOk(s', f) {
      if f != v { assert FrameOk(s, f); LocalFrame(s, s', f); }
    }
    forall x | x in s'.table ensures EntryOk(s', x) {
      if Some(x) != snapshot { assert EntryOk(s, x); LocalEntry(s, s', x); }
    }
    forall x | x in s'.history ensures PageOk(s', x) { assert PageOk(s, x); }
    forall u | 0 <= u < |s'.threads| ensures ThreadOk(s', u) {
      if u != t { ReserveThread(s, t, u); } else { ReserveSelf(s, t); }
    }
    forall g | g in s'.guards ensures GuardOk(s', g) {
      assert GuardOk(s, g);
      if s.guards[g].writing { LocksShrink(s, s', s.guards[g].frame); }
    }
  }

  lemma ReserveSelf(s: State, t: nat)
    requires CanReserve(s, t)
    ensures ThreadOk(ReserveStep(s, t), t)
  {
    assert ThreadOk(s, t);
    assert FrameOk(s, s.threads[t].stage.f);
  }

  lemma ReserveThread(s: State, t: nat, u: nat)
    requires CanReserve(s, t) && u < |s.threads| && u != t
    ensures ThreadOk(ReserveStep(s, t), u)
  {
    assert ThreadOk(s, t);
    assert ThreadOk(s, u);
    match s.threads[u]
    case Load(_, _, _, _) => ReserveLoader(s, t, u);
    case Flush(_, _, _) => ReserveFlusher(s, t, u);
    case _ =>
  }

  lemma ReserveAwaited(s: State, t: nat, q: Pending)
    requires CanReserve(s, t) && LoaderOk(s, t)
    ensures Awaited(s, q) ==> Awaited(ReserveStep(s, t), q)
    ensures q in s.done || Live(s, q) ==> q in s.done || Live(ReserveStep(s, t), q)
  {
  }

  lemma ReserveLoader(s: State, t: nat, u: nat)
    requires CanReserve(s, t) && u < |s.threads| && u != t && LoaderOk(s, t)
    requires s.threads[u].Load? && LoaderOk(s, u)
    ensures ThreadOk(ReserveStep(s, t), u)
  {
    UnpinnedFrame(s, s.threads[t].stage.f);
    if s.threads[u].stage.AwaitingVictim? { ReserveAwaited(s, t, s.threads[u].stage.on); }
    LocalLoader(s, ReserveStep(s, t), u);
  }

  lemma ReserveFlusher(s: State, t: nat, u: nat)
    requires CanReserve(s, t) && u < |s.threads| && u != t && LoaderOk(s, t)
    requires s.threads[u].Flush? && FlusherOk(s, u)
    ensures ThreadOk(ReserveStep(s, t), u)
  {
    UnpinnedFrame(s, s.threads[t].stage.f);
    if s.threads[u].phase.Awaiting? { ReserveAwaited(s, t, s.threads[u].phase.on); }
    LocalFlusher(s, ReserveStep(s, t), u);
  }

  // ----- steps on a resident page: flush writes and guard writes -----

  /** `s'` differs from `s` in the bytes, dirty bit and store copy of one resident page, and in one flusher. */
  ghost predicate Resident(s: State, s': State, t: nat, f: nat, x: PageId) {
    && f < |s.frames| && |s'.frames| == |s.frames| && |s'.threads| == |s.threads|
    && s.frames[f].state == Valid(x) && s'.frames[f].state == Valid(x)
    && (forall i :: 0 <= i < |s.frames| && i != f ==> s'.frames[i] == s.frames[i])
    && (forall u :: 0 <= u < |s.threads| && u != t ==> s'.threads[u] == s.threads[u])
    && (t < |s.threads| ==> !s.threads[t].Load? && !s'.threads[t].Load?)
    && (forall p :: p != x ==> SamePage(s, s', p)
                               && (p in s.store ==> p in s'.store && s'.store[p] == s.store[p]))
    && s'.table == s.table && s'.done == s.done && s'.serial == s.serial
    && s'.history.Keys == s.history.Keys && s'.store.Keys == s.store.Keys
  }

  lemma KeepResident(s: State, s': State, t: nat, f: nat, x: PageId)
    requires Core(s) && Resident(s, s', t, f, x)
    requires FrameOk(s', f) && x in s'.history && PageOk(s', x)
    requires t < |s.threads| ==> ThreadOk(s', t)
    requires forall u :: 0 <= u < |s.threads| && u != t && s.threads[u].Flush? && s.threads[u].phase == Wrote(x)
                         ==> Stored(s', x)
    requires OneWriter(s') && forall g {:trigger GuardOk(s', g)} :: g in s'.guards ==> GuardOk(s', g)
    ensures Core(s')
  {
    assert FrameOk(s, f);
    forall i | 0 <= i < |s'.frames| ensures FrameOk(s', i) {
      if i != f { assert FrameOk(s, i); LocalFrame(s, s', i); }
    }
    forall p | p in s'.table ensures EntryOk(s', p) { ResidentEntry(s, s', t, f, x, p); }
    forall p | p in s'.history ensures PageOk(s', p) { if p != x { assert PageOk(s, p); } }
    forall u | 0 <= u < |s'.threads| ensures ThreadOk(s', u) { if u != t { ResidentThread(s, s', t, f, x, u); } }
  }

  lemma ResidentEntry(s: State, s': State, t: nat, f: nat, x: PageId, p: PageId)
    requires Core(s) && Resident(s, s', t, f, x) && p in s.table
    ensures EntryOk(s', p)
  {
    assert EntryOk(s, p);
    assert FrameOk(s, f);
  }

  lemma ResidentThread(s: State, s': State, t: nat, f: nat, x: PageId, u: nat)
    requires Core(s) && Resident(s, s', t, f, x) && FrameOk(s, f)
    requires u < |s.threads| && u != t
    requires s.threads[u].Flush? && s.threads[u].phase == Wrote(x) ==> Stored(s', x)
    ensures ThreadOk(s', u)
  {
    assert ThreadOk(s, u);
    match s.threads[u]
    case Load(_, _, _, _) => LocalLoader(s, s', u);
    case Flush(_, _, _) =>
    case _ =>
  }
}
