/**
What holds between any two critical sections of the concurrent pool, and the proof that
every step keeps it.
*/
module PoolV3Invariant {
  import opened Storage
  import opened PoolV3

  // ----- what a program counter owns -----

  /** The unfinished load the thread is responsible for. */
  ghost function PendingOf(pc: Pc): Option<Pending> {
    if pc.Load? && !pc.stage.Returning? then Some(pc.pending) else None
  }

  /** The page whose table entry is the thread's Loading mark. */
  ghost function ClaimOf(pc: Pc): Option<PageId> {
    if pc.Load? && !pc.stage.GivenUp? && !pc.stage.RolledBack? && !pc.stage.Finishing? && !pc.stage.Returning?
    then Some(pc.page) else None
  }

  /** The page whose table entry is the thread's Leaving mark. */
  ghost function PriorOf(pc: Pc): Option<PageId> {
    if !pc.Load? then None
    else match pc.stage
      case Reserved(_, prior) => prior
      case WritingBack(_, prior) => prior
      case Cleaning(_, prior) => prior
      case Reading(_, prior) => prior
      case Replacing(_, prior, _) => prior
      case RemovingOld(_, prior) => prior
      case Restoring(_, prior) => prior
      case _ => None
  }

  /** The loader has a victim, or is already past it: it never waits again. */
  ghost predicate Committed(pc: Pc) {
    && pc.Load?
    && !pc.stage.Choosing? && !pc.stage.Looking? && !pc.stage.Reserving? && !pc.stage.Scanning?
    && !pc.stage.AwaitingVictim?
    && !pc.stage.GivingUp? && !pc.stage.GivenUp?
  }

  /** The victim's frame still holds the old page's bytes. */
  ghost predicate Untouched(pc: Pc) {
    && pc.Load?
    && (pc.stage.Reserved? || pc.stage.WritingBack? || pc.stage.Cleaning? || pc.stage.Reading?
        || pc.stage.Replacing? || pc.stage.Restoring?)
  }

  // ----- page contents -----

  ghost function Latest(s: State, p: PageId): Image
    requires p in s.history && |s.history[p]| > 0
  {
    Image(s.history[p][|s.history[p]| - 1], |s.history[p]| - 1)
  }

  ghost predicate IsLatest(s: State, p: PageId, image: Image) {
    p in s.history && |s.history[p]| > 0 && image == Latest(s, p)
  }

  /** The store holds the page's last content, intact. */
  ghost predicate Stored(s: State, p: PageId) {
    p in s.store && !s.store[p].torn && IsLatest(s, p, s.store[p].image)
  }

  // ----- the invariant, entity by entity -----

  /** `q` is unfinished and its owner is the live loader that will finish it. */
  ghost predicate Live(s: State, q: Pending) {
    && q !in s.done && q.owner < |s.threads| && PendingOf(s.threads[q.owner]) == Some(q)
  }

  ghost predicate FrameOk(s: State, f: nat)
    requires f < |s.frames|
  {
    match s.frames[f].state
    case Empty => true
    case Valid(x) =>
      && x in s.table && s.table[x] == Ready(f)
      && IsLatest(s, x, s.frames[f].data)
      && (s.frames[f].dirty || Stored(s, x))
    case Evicting(q) => Live(s, q) && HoldOf(s.threads[q.owner]) == Some(f)
  }

  ghost predicate EntryOk(s: State, p: PageId)
    requires p in s.table
  {
    match s.table[p]
    case Ready(i) => i < |s.frames| && s.frames[i].state == Valid(p)
    case Loading(q) => Live(s, q) && ClaimOf(s.threads[q.owner]) == Some(p)
    case Leaving(q) => Live(s, q) && PriorOf(s.threads[q.owner]) == Some(p)
  }

  ghost predicate PageOk(s: State, p: PageId)
    requires p in s.history
  {
    && p in s.store && |s.history[p]| > 0
    && s.store[p].image.version < |s.history[p]|
    && (s.store[p].torn || s.store[p].image.bytes == s.history[p][s.store[p].image.version])
    && (p !in s.table || s.table[p].Loading? ==> Stored(s, p))
  }

  /** The bytes around a victim: the old page until it is replaced, the new page afterwards. */
  ghost predicate VictimOk(s: State, pc: Pc)
    requires pc.Load?
    requires HoldOf(pc).Some? ==> HoldOf(pc).value < |s.frames|
  {
    && (PriorOf(pc).Some? && Untouched(pc) ==>
          var x := PriorOf(pc).value;
          var f := HoldOf(pc).value;
          IsLatest(s, x, s.frames[f].data) && (s.frames[f].dirty || Stored(s, x)))
    && match pc.stage
       case WritingBack(f, prior) => prior.Some? && s.frames[f].dirty
       case Cleaning(f, prior) => prior.Some? && Stored(s, prior.value)
       case Reading(f, prior) => prior.Some? ==> Stored(s, prior.value) && !s.frames[f].dirty
       case Replacing(f, prior, image) =>
         && IsLatest(s, pc.page, image)
         && (prior.Some? ==> Stored(s, prior.value) && !s.frames[f].dirty)
       case RemovingOld(f, prior) =>
         && IsLatest(s, pc.page, s.frames[f].data)
         && (prior.Some? ==> Stored(s, prior.value))
       case Publishing(f) => IsLatest(s, pc.page, s.frames[f].data)
       case _ => true
  }

  /** A loader's own marks: what its program counter says is what table and frames say. */
  ghost predicate LoaderOk(s: State, t: nat)
    requires t < |s.threads| && s.threads[t].Load?
  {
    var pc := s.threads[t];
    && pc.pending.owner == t && pc.pending.serial < s.serial
    && (pc.stage.Returning? <==> pc.pending in s.done)
    && (ClaimOf(pc).Some? ==> pc.page in s.table && s.table[pc.page] == Loading(pc.pending))
    && (PriorOf(pc).Some? ==> PriorOf(pc).value in s.table && s.table[PriorOf(pc).value] == Leaving(pc.pending))
    && (TouchOf(pc).Some? ==> TouchOf(pc).value < |s.frames|)
    && (HoldOf(pc).Some? ==> s.frames[HoldOf(pc).value].state == Evicting(pc.pending))
    && (pc.stage.Finishing? || pc.stage.Returning? ==> s.frames[pc.stage.f].state == Valid(pc.page))
    && (pc.stage.Unpinning? ==> !s.frames[pc.stage.f].state.Evicting?)
    && (pc.stage.AwaitingVictim? ==> Awaited(s, pc.stage.on))
    && VictimOk(s, pc)
  }

  /** A load that is waited for by somebody who may not wait for an undecided loader. */
  ghost predicate Awaited(s: State, q: Pending) {
    q in s.done || (Live(s, q) && Committed(s.threads[q.owner]))
  }

  ghost predicate FlusherOk(s: State, t: nat)
    requires t < |s.threads| && s.threads[t].Flush?
  {
    var pc := s.threads[t];
    && (pc.phase.Awaiting? ==> Awaited(s, pc.phase.on))
    && (PinOf(pc).Some? ==> pc.i < |s.frames| && s.frames[pc.i].state == Valid(pc.phase.page))
    && (pc.phase.Wrote? ==> Stored(s, pc.phase.page))
  }

  ghost predicate ThreadOk(s: State, t: nat)
    requires t < |s.threads|
  {
    match s.threads[t]
    case Waiting(_, _, q) => q in s.done || Live(s, q)
    case Load(_, _, _, _) => LoaderOk(s, t)
    case Flush(_, _, _) => FlusherOk(s, t)
    case _ => true
  }

  ghost predicate GuardOk(s: State, g: nat)
    requires g in s.guards
  {
    var guard := s.guards[g];
    && g < s.serial && guard.frame < |s.frames|
    && s.frames[guard.frame].state == Valid(guard.page)
    && (guard.writing ==> s.frames[guard.frame].dirty && !ReadLocked(s, guard.frame))
  }

  ghost predicate OneWriter(s: State) {
    forall g, h |
      g in s.guards && h in s.guards && s.guards[g].writing && s.guards[h].writing
      && s.guards[g].frame == s.guards[h].frame
      :: g == h
  }

  // ----- pin accounting -----

  ghost function ThreadPins(threads: seq<Pc>, f: nat): set<nat> {
    set t | 0 <= t < |threads| && PinOf(threads[t]) == Some(f)
  }

  ghost function GuardPins(guards: map<nat, Guard>, f: nat): set<nat> {
    set g | g in guards && guards[g].frame == f
  }

  ghost predicate PinOk(s: State, f: nat)
    requires f < |s.frames|
  {
    s.frames[f].pin == |ThreadPins(s.threads, f)| + |GuardPins(s.guards, f)|
  }

  ghost predicate Inv(s: State) {
    Core(s) && forall f :: 0 <= f < |s.frames| ==> PinOk(s, f)
  }

  /** The invariant without the pin accounting. */
  ghost predicate Core(s: State) {
    && |s.frames| > 0 && s.history.Keys == s.store.Keys
    && (forall f :: 0 <= f < |s.frames| ==> FrameOk(s, f))
    && (forall p {:trigger EntryOk(s, p)} :: p in s.table ==> EntryOk(s, p))
    && (forall p {:trigger PageOk(s, p)} :: p in s.history ==> PageOk(s, p))
    && (forall t :: 0 <= t < |s.threads| ==> ThreadOk(s, t))
    && (forall g {:trigger GuardOk(s, g)} :: g in s.guards ==> GuardOk(s, g))
    && OneWriter(s)
    && (forall q :: q in s.done ==> q.serial < s.serial)
  }

  /**
  Every step but one keeps the invariant unconditionally. The exception is a store write
  that a flush starts on a page which another flush has meanwhile written and is about to
  mark clean, or has marked clean: if that write fails half way, the damage goes unnoticed.
  */
  ghost predicate TearSafe(s: State, a: Action) {
    a.StoreWrite? && a.outcome.Torn? && a.t < |s.threads| && s.threads[a.t].Flush? ==>
      var i := s.threads[a.t].i;
      && i < |s.frames| && s.frames[i].dirty
      && forall t :: 0 <= t < |s.threads| && t != a.t && s.threads[t].Flush? && s.threads[t].i == i
                     ==> !s.threads[t].phase.Wrote?
  }

  // ----- pins -----

  lemma ThreadPinsAfter(threads: seq<Pc>, t: nat, pc: Pc, f: nat)
    requires t < |threads|
    ensures |ThreadPins(threads[t := pc], f)| ==
            |ThreadPins(threads, f)|
            - (if PinOf(threads[t]) == Some(f) then 1 else 0) + (if PinOf(pc) == Some(f) then 1 else 0)
  {
    var rest := ThreadPins(threads, f) - {t};
    assert ThreadPins(threads, f) == if PinOf(threads[t]) == Some(f) then rest + {t} else rest;
    assert ThreadPins(threads[t := pc], f) == if PinOf(pc) == Some(f) then rest + {t} else rest;
  }

  lemma GuardPinsAdd(guards: map<nat, Guard>, g: nat, guard: Guard, f: nat)
    requires g !in guards
    ensures |GuardPins(guards[g := guard], f)| == |GuardPins(guards, f)| + (if guard.frame == f then 1 else 0)
  {
    assert GuardPins(guards[g := guard], f) ==
           if guard.frame == f then GuardPins(guards, f) + {g} else GuardPins(guards, f);
  }

  lemma GuardPinsDrop(guards: map<nat, Guard>, g: nat, f: nat)
    requires g in guards
    ensures |GuardPins(guards - {g}, f)| == |GuardPins(guards, f)| - (if guards[g].frame == f then 1 else 0)
  {
    assert GuardPins(guards - {g}, f) == GuardPins(guards, f) - {g};
    assert g in GuardPins(guards, f) <==> guards[g].frame == f;
  }

  lemma GuardPinsKeep(guards: map<nat, Guard>, g: nat, writing: bool, f: nat)
    requires g in guards
    ensures GuardPins(guards[g := guards[g].(writing := writing)], f) == GuardPins(guards, f)
  {
  }

  /** A frame with pin count zero has no guard and no thread's pin. */
  lemma UnpinnedFrame(s: State, f: nat)
    requires f < |s.frames| && PinOk(s, f) && s.frames[f].pin == 0
    ensures forall t :: 0 <= t < |s.threads| ==> PinOf(s.threads[t]) != Some(f)
    ensures forall g :: g in s.guards ==> s.guards[g].frame != f
  {
    forall t | 0 <= t < |s.threads| ensures PinOf(s.threads[t]) != Some(f) {
      assert t in ThreadPins(s.threads, f) <==> PinOf(s.threads[t]) == Some(f);
    }
    forall g | g in s.guards ensures s.guards[g].frame != f {
      assert g in GuardPins(s.guards, f) <==> s.guards[g].frame == f;
    }
  }
}
