/**
The concurrent buffer pool as a transition system.

Every critical section of the pool (one shard lock, one frame-state lock, one atomic
operation, one store call) is one step of one thread, and steps of different threads
interleave freely. A thread's program counter names the critical section it enters next.

Two additions exist for specification only. Page images carry the number of the guard
write that produced them, and `history` lists every content a page has had. No branch
of a step looks at either.
*/
module PoolV3 {
  import opened Storage

  /** Bytes of a page together with the index of those bytes in the page's history. */
  datatype Image = Image(bytes: Bytes, version: nat)

  /** What the store holds for a page; `torn` records that the last write to it failed half way. */
  datatype Cell = Cell(image: Image, torn: bool)

  /** Identity of an in-flight load: the thread that allocated it and a serial number. */
  datatype Pending = Pending(owner: nat, serial: nat)

  datatype FrameState = Empty | Valid(page: PageId) | Evicting(pending: Pending)

  datatype Entry = Ready(index: nat) | Loading(pending: Pending) | Leaving(pending: Pending)

  datatype Frame = Frame(state: FrameState, data: Image, pin: nat, referenced: bool, dirty: bool)

  datatype Guard = Guard(page: PageId, frame: nat, writing: bool)

  datatype Reply = Nothing | Guarded(guard: nat) | Failed(error: PoolError) | Flushed(start: map<PageId, nat>)

  datatype LoadStage =
    | Choosing(k: nat)
    | Looking(k: nat, f: nat)
    | Reserving(k: nat, f: nat, snapshot: Option<PageId>)
    | Scanning(j: nat)
    | AwaitingVictim(on: Pending)
    | GivingUp
    | GivenUp
    | Reserved(f: nat, prior: Option<PageId>)
    | WritingBack(f: nat, prior: Option<PageId>)
    | Cleaning(f: nat, prior: Option<PageId>)
    | Reading(f: nat, prior: Option<PageId>)
    | Replacing(f: nat, prior: Option<PageId>, image: Image)
    | RemovingOld(f: nat, prior: Option<PageId>)
    | Publishing(f: nat)
    | Finishing(f: nat)
    | Returning(f: nat)
    | Restoring(f: nat, prior: Option<PageId>)
    | Unpinning(f: nat)
    | Unclaiming
    | RolledBack

  datatype FlushStage =
    | Visiting
    | Awaiting(on: Pending)
    | Pinned(page: PageId)
    | Locking(page: PageId)
    | Locked(page: PageId)
    | Wrote(page: PageId)
    | Releasing(page: PageId)
    | Aborting(page: PageId)

  datatype Pc =
    | Idle(reply: Reply)
    | Lookup(page: PageId, mode: AccessMode)
    | Waiting(page: PageId, mode: AccessMode, on: Pending)
    | Claiming(page: PageId, mode: AccessMode)
    | Load(page: PageId, mode: AccessMode, pending: Pending, stage: LoadStage)
    | Flush(start: map<PageId, nat>, i: nat, phase: FlushStage)

  datatype State = State(
    store: map<PageId, Cell>,
    frames: seq<Frame>,
    table: map<PageId, Entry>,
    hand: nat,
    threads: seq<Pc>,
    guards: map<nat, Guard>,
    done: set<Pending>,
    serial: nat,
    history: map<PageId, seq<Bytes>>)

  datatype Action =
    | StartFetch(t: nat, page: PageId, mode: AccessMode)
    | StartFlush(t: nat)
    | Run(t: nat)
    | StoreWrite(t: nat, outcome: WriteOutcome)
    | StoreRead(t: nat, ok: bool)
    | BeginWrite(g: nat)
    | EndWrite(g: nat, bytes: Bytes)
    | DropGuard(g: nat)

  const USIZE: nat := 0x1_0000_0000_0000_0000

  // ----- small updates -----

  function Goto(s: State, t: nat, pc: Pc): State
    requires t < |s.threads|
  {
    s.(threads := s.threads[t := pc])
  }

  function GotoStage(s: State, t: nat, stage: LoadStage): State
    requires t < |s.threads| && s.threads[t].Load?
  {
    Goto(s, t, s.threads[t].(stage := stage))
  }

  function GotoPhase(s: State, t: nat, phase: FlushStage): State
    requires t < |s.threads| && s.threads[t].Flush?
  {
    Goto(s, t, s.threads[t].(phase := phase))
  }

  function SetFrame(s: State, f: nat, frame: Frame): State
    requires f < |s.frames|
  {
    s.(frames := s.frames[f := frame])
  }

  function Unpinned(frame: Frame): Frame {
    frame.(pin := if frame.pin > 0 then frame.pin - 1 else 0)
  }

  /** The image the store ends up with after writing `image` over `cell`. */
  function StoreAfter(cell: Cell, image: Image, outcome: WriteOutcome): Cell {
    match outcome
    case Written => Cell(image, false)
    case Refused => cell
    case Torn(garbage) => Cell(Image(garbage, image.version), true)
  }

  // ----- fetch -----

  /** One shard read lock: a hit pins, marks and hands out a guard; otherwise wait or claim. */
  function LookupStep(s: State, t: nat): (r: State)
    requires t < |s.threads| && s.threads[t].Lookup?
    requires var p := s.threads[t].page;
             p in s.table && s.table[p].Ready? ==> s.table[p].index < |s.frames|
    ensures KeepsOthers(s, r, t)
  {
    var pc := s.threads[t];
    if pc.page !in s.table then Goto(s, t, Claiming(pc.page, pc.mode))
    else match s.table[pc.page]
      case Ready(i) =>
        var frame := s.frames[i];
        var hit := frame.(pin := frame.pin + 1, referenced := frame.referenced || pc.mode.Normal?);
        Goto(SetFrame(s, i, hit), t, Idle(Guarded(s.serial)))
          .(guards := s.guards[s.serial := Guard(pc.page, i, false)], serial := s.serial + 1)
      case Loading(q) => Goto(s, t, Waiting(pc.page, pc.mode, q))
      case Leaving(q) => Goto(s, t, Waiting(pc.page, pc.mode, q))
  }

  /** One shard write lock: become the page's loader unless somebody else got there first. */
  function ClaimStep(s: State, t: nat): (r: State)
    requires t < |s.threads| && s.threads[t].Claiming?
    ensures KeepsOthers(s, r, t)
  {
    var pc := s.threads[t];
    if pc.page in s.table then Goto(s, t, Lookup(pc.page, pc.mode))
    else
      var q := Pending(t, s.serial);
      Goto(s, t, Load(pc.page, pc.mode, q, Choosing(0)))
        .(table := s.table[pc.page := Loading(q)], serial := s.serial + 1)
  }

  // ----- choose_victim and wait_for_active_load -----

  /** Advance the shared hand, or give up after two sweeps. */
  function TickStep(s: State, t: nat): (r: State)
    requires t < |s.threads| && s.threads[t].Load? && s.threads[t].stage.Choosing?
    requires |s.frames| > 0
    ensures MovesOnly(s, r, t, TouchOf(s.threads[t])) && r.done == s.done
    ensures r.threads[t].Load? && r.threads[t].pending == s.threads[t].pending
  {
    var k := s.threads[t].stage.k;
    if k >= 2 * |s.frames| then GotoStage(s, t, Scanning(0))
    else GotoStage(s.(hand := (s.hand + 1) % USIZE), t, Looking(k, s.hand % |s.frames|))
  }

  /** Snapshot the frame's state, to know which locks a reservation needs. */
  function SnapshotStep(s: State, t: nat): (r: State)
    requires t < |s.threads| && s.threads[t].Load? && s.threads[t].stage.Looking?
    requires s.threads[t].stage.f < |s.frames|
    ensures MovesOnly(s, r, t, TouchOf(s.threads[t])) && r.done == s.done
    ensures r.threads[t].Load? && r.threads[t].pending == s.threads[t].pending
  {
    var Looking(k, f) := s.threads[t].stage;
    match s.frames[f].state
    case Empty => GotoStage(s, t, Reserving(k, f, None))
    case Valid(x) => GotoStage(s, t, Reserving(k, f, Some(x)))
    case Evicting(_) => GotoStage(s, t, Choosing(k + 1))
  }

  /** The recheck of try_reserve, made under the locks that its snapshot selected. */
  predicate Reservable(s: State, f: nat, snapshot: Option<PageId>)
    requires f < |s.frames|
  {
    && s.frames[f].pin == 0
    && match snapshot
       case None => s.frames[f].state == Empty
       case Some(x) => s.frames[f].state == Valid(x) && x in s.table && s.table[x] == Ready(f)
  }

  function ReserveStep(s: State, t: nat): (r: State)
    requires t < |s.threads| && s.threads[t].Load? && s.threads[t].stage.Reserving?
    requires s.threads[t].stage.f < |s.frames|
    ensures MovesOnly(s, r, t, TouchOf(s.threads[t])) && r.done == s.done
    ensures r.threads[t].Load? && r.threads[t].pending == s.threads[t].pending
  {
    var pc := s.threads[t];
    var Reserving(k, f, snapshot) := pc.stage;
    var frame := s.frames[f];
    if !Reservable(s, f, snapshot) then GotoStage(s, t, Choosing(k + 1))
    else if k < |s.frames| && frame.referenced then
      GotoStage(SetFrame(s, f, frame.(referenced := false)), t, Choosing(k + 1))
    else
      var held := frame.(state := Evicting(pc.pending), pin := 1,
                         referenced := if k < |s.frames| then false else frame.referenced);
      var table := if snapshot.Some? then s.table[snapshot.value := Leaving(pc.pending)] else s.table;
      GotoStage(SetFrame(s, f, held), t, Reserved(f, snapshot)).(table := table)
  }

  function ScanStep(s: State, t: nat): (r: State)
    requires t < |s.threads| && s.threads[t].Load? && s.threads[t].stage.Scanning?
    ensures MovesOnly(s, r, t, TouchOf(s.threads[t])) && r.done == s.done
    ensures r.threads[t].Load? && r.threads[t].pending == s.threads[t].pending
  {
    var j := s.threads[t].stage.j;
    if j >= |s.frames| then GotoStage(s, t, GivingUp)
    else match s.frames[j].state
      case Evicting(q) => GotoStage(s, t, AwaitingVictim(q))
      case _ => GotoStage(s, t, Scanning(j + 1))
  }

  // ----- load_claimed once a victim is held, and restore_failed_load -----

  function ReplaceStep(s: State, t: nat): (r: State)
    requires t < |s.threads| && s.threads[t].Load? && s.threads[t].stage.Replacing?
    requires s.threads[t].stage.f < |s.frames|
    ensures MovesOnly(s, r, t, TouchOf(s.threads[t]))
    ensures r.threads[t].Load? && r.threads[t].pending == s.threads[t].pending
  {
    var Replacing(f, prior, image) := s.threads[t].stage;
    var frame := s.frames[f].(data := image, dirty := false, referenced := s.threads[t].mode.Normal?);
    GotoStage(SetFrame(s, f, frame), t, RemovingOld(f, prior))
  }

  function RemoveOldStep(s: State, t: nat): (r: State)
    requires t < |s.threads| && s.threads[t].Load? && s.threads[t].stage.RemovingOld?
    ensures MovesOnly(s, r, t, TouchOf(s.threads[t]))
    ensures r.threads[t].Load? && r.threads[t].pending == s.threads[t].pending
  {
    var RemovingOld(f, prior) := s.threads[t].stage;
    GotoStage(s, t, Publishing(f)).(table := if prior.Some? then s.table - {prior.value} else s.table)
  }

  function PublishStep(s: State, t: nat): (r: State)
    requires t < |s.threads| && s.threads[t].Load? && s.threads[t].stage.Publishing?
    requires s.threads[t].stage.f < |s.frames|
    ensures MovesOnly(s, r, t, TouchOf(s.threads[t]))
    ensures r.threads[t].Load? && r.threads[t].pending == s.threads[t].pending
  {
    var pc := s.threads[t];
    var f := pc.stage.f;
    GotoStage(SetFrame(s, f, s.frames[f].(state := Valid(pc.page))), t, Finishing(f))
      .(table := s.table[pc.page := Ready(f)])
  }

  function ReturnStep(s: State, t: nat): (r: State)
    requires t < |s.threads| && s.threads[t].Load? && s.threads[t].stage.Returning?
    ensures MovesOnly(s, r, t, TouchOf(s.threads[t])) && r.threads[t] == Idle(Guarded(s.serial))
  {
    Goto(s, t, Idle(Guarded(s.serial)))
      .(guards := s.guards[s.serial := Guard(s.threads[t].page, s.threads[t].stage.f, false)],
        serial := s.serial + 1)
  }

  function RestoreStep(s: State, t: nat): (r: State)
    requires t < |s.threads| && s.threads[t].Load? && s.threads[t].stage.Restoring?
    requires s.threads[t].stage.f < |s.frames|
    ensures MovesOnly(s, r, t, TouchOf(s.threads[t]))
    ensures r.threads[t].Load? && r.threads[t].pending == s.threads[t].pending
  {
    var Restoring(f, prior) := s.threads[t].stage;
    var state := if prior.Some? then Valid(prior.value) else Empty;
    GotoStage(SetFrame(s, f, s.frames[f].(state := state)), t, Unpinning(f))
      .(table := if prior.Some? then s.table[prior.value := Ready(f)] else s.table)
  }

  function FinishStep(s: State, t: nat, pc: Pc): (r: State)
    requires t < |s.threads| && s.threads[t].Load?
    ensures MovesOnly(s, r, t, None) && r.threads[t] == pc
  {
    Goto(s, t, pc).(done := s.done + {s.threads[t].pending})
  }

  /** choose_victim, wait_for_active_load and giving up. */
  function SearchStep(s: State, t: nat): (r: State)
    requires CanRun(s, t) && s.threads[t].Load? && IsSearch(s.threads[t].stage)
    ensures MovesOnly(s, r, t, TouchOf(s.threads[t]))
    ensures r.threads[t].Load? || (r.threads[t].Idle? && r.threads[t].reply.Failed?)
  {
    var pc := s.threads[t];
    match pc.stage
    case Choosing(_) => TickStep(s, t)
    case Looking(_, _) => SnapshotStep(s, t)
    case Reserving(_, _, _) => ReserveStep(s, t)
    case Scanning(_) => ScanStep(s, t)
    case AwaitingVictim(_) => GotoStage(s, t, Choosing(0))
    case GivingUp => GotoStage(s, t, GivenUp).(table := s.table - {pc.page})
    case GivenUp => FinishStep(s, t, Idle(Failed(AllFramesPinned)))
    case _ => s
  }

  /** load_claimed from the reserved victim to the returned guard, without the store calls. */
  function InstallStep(s: State, t: nat): (r: State)
    requires CanRun(s, t) && s.threads[t].Load? && IsInstall(s.threads[t].stage)
    ensures MovesOnly(s, r, t, TouchOf(s.threads[t]))
    ensures r.threads[t].Load? || (r.threads[t].Idle? && r.threads[t].reply.Guarded?)
  {
    var pc := s.threads[t];
    match pc.stage
    case Reserved(f, prior) =>
      GotoStage(s, t, if prior.Some? && s.frames[f].dirty then WritingBack(f, prior) else Reading(f, prior))
    case Cleaning(f, prior) =>
      GotoStage(SetFrame(s, f, s.frames[f].(dirty := false)), t, Reading(f, prior))
    case Replacing(_, _, _) => ReplaceStep(s, t)
    case RemovingOld(_, _) => RemoveOldStep(s, t)
    case Publishing(_) => PublishStep(s, t)
    case Finishing(f) => FinishStep(s, t, pc.(stage := Returning(f)))
    case Returning(_) => ReturnStep(s, t)
    case _ => s
  }

  /** restore_failed_load after its caller's store call has failed. */
  function RollbackStep(s: State, t: nat): (r: State)
    requires CanRun(s, t) && s.threads[t].Load? && IsRollback(s.threads[t].stage)
    ensures MovesOnly(s, r, t, TouchOf(s.threads[t]))
    ensures r.threads[t].Load? || (r.threads[t].Idle? && r.threads[t].reply.Failed?)
  {
    var pc := s.threads[t];
    match pc.stage
    case Restoring(_, _) => RestoreStep(s, t)
    case Unpinning(f) => GotoStage(SetFrame(s, f, Unpinned(s.frames[f])), t, Unclaiming)
    case Unclaiming => GotoStage(s, t, RolledBack).(table := s.table - {pc.page})
    case RolledBack => FinishStep(s, t, Idle(Failed(Io)))
    case _ => s
  }

  /** Every step of a loading thread except its store calls. */
  function LoadStep(s: State, t: nat): (r: State)
    requires CanRun(s, t) && s.threads[t].Load?
    ensures MovesOnly(s, r, t, TouchOf(s.threads[t]))
    ensures r.threads[t].Load? || (r.threads[t].Idle? && !r.threads[t].reply.Flushed?)
  {
    if IsSearch(s.threads[t].stage) then SearchStep(s, t)
    else if IsInstall(s.threads[t].stage) then InstallStep(s, t)
    else RollbackStep(s, t)
  }

  predicate IsSearch(stage: LoadStage) {
    stage.Choosing? || stage.Looking? || stage.Reserving? || stage.Scanning? || stage.AwaitingVictim?
    || stage.GivingUp? || stage.GivenUp?
  }

  predicate IsInstall(stage: LoadStage) {
    stage.Reserved? || stage.Cleaning? || stage.Replacing? || stage.RemovingOld? || stage.Publishing?
    || stage.Finishing? || stage.Returning?
  }

  predicate IsRollback(stage: LoadStage) {
    stage.Restoring? || stage.Unpinning? || stage.Unclaiming? || stage.RolledBack?
  }

  /** A step of thread `t` moves no other thread and is not a guard write. */
  ghost predicate KeepsOthers(s: State, r: State, t: nat) {
    && |r.threads| == |s.threads| && |r.frames| == |s.frames| && r.history == s.history
    && forall u :: 0 <= u < |s.threads| && u != t ==> r.threads[u] == s.threads[u]
  }

  /** A step of thread `t` moves no other thread, and of the frames at most `touched`. */
  ghost predicate MovesOnly(s: State, r: State, t: nat, touched: Option<nat>) {
    && KeepsOthers(s, r, t)
    && forall f :: 0 <= f < |s.frames| && touched != Some(f) ==> r.frames[f] == s.frames[f]
  }

  // ----- flush_all -----

  function VisitStep(s: State, t: nat): (r: State)
    requires t < |s.threads| && s.threads[t].Flush? && s.threads[t].phase.Visiting?
    ensures MovesOnly(s, r, t, Some(s.threads[t].i)) && FlushesOn(s, r, t)
  {
    var pc := s.threads[t];
    if pc.i >= |s.frames| then Goto(s, t, Idle(Flushed(pc.start)))
    else match s.frames[pc.i].state
      case Empty => Goto(s, t, pc.(i := pc.i + 1))
      case Valid(x) =>
        GotoPhase(SetFrame(s, pc.i, s.frames[pc.i].(pin := s.frames[pc.i].pin + 1)), t, Pinned(x))
      case Evicting(q) => GotoPhase(s, t, Awaiting(q))
  }

  /** The end of a frame's visit: mark it clean, release its pin, move on or give up. */
  function LeaveStep(s: State, t: nat): (r: State)
    requires CanRun(s, t) && s.threads[t].Flush?
    requires s.threads[t].phase.Wrote? || s.threads[t].phase.Releasing? || s.threads[t].phase.Aborting?
    ensures MovesOnly(s, r, t, Some(s.threads[t].i)) && FlushesOn(s, r, t)
  {
    var pc := s.threads[t];
    match pc.phase
    case Wrote(x) => GotoPhase(SetFrame(s, pc.i, s.frames[pc.i].(dirty := false)), t, Releasing(x))
    case Releasing(_) =>
      Goto(SetFrame(s, pc.i, Unpinned(s.frames[pc.i])), t, Flush(pc.start, pc.i + 1, Visiting))
    case Aborting(_) => Goto(SetFrame(s, pc.i, Unpinned(s.frames[pc.i])), t, Idle(Failed(Io)))
    case _ => s
  }

  /** Every step of a flushing thread except its store call. */
  function FlushStep(s: State, t: nat): (r: State)
    requires CanRun(s, t) && s.threads[t].Flush?
    ensures MovesOnly(s, r, t, Some(s.threads[t].i)) && FlushesOn(s, r, t)
  {
    var pc := s.threads[t];
    match pc.phase
    case Visiting => VisitStep(s, t)
    case Awaiting(_) => GotoPhase(s, t, Visiting)
    case Pinned(x) => GotoPhase(s, t, if s.frames[pc.i].dirty then Locking(x) else Releasing(x))
    case Locking(x) => GotoPhase(s, t, Locked(x))
    case Locked(_) => s
    case _ => LeaveStep(s, t)
  }

  /** A flush step leaves the table and the store alone, and the flush goes on with its start or replies. */
  ghost predicate FlushesOn(s: State, r: State, t: nat)
    requires t < |s.threads| && s.threads[t].Flush?
  {
    && r.table == s.table && r.store == s.store && t < |r.threads|
    && var start := s.threads[t].start;
       || (r.threads[t].Flush? && r.threads[t].start == start)
       || r.threads[t] == Idle(Flushed(start)) || r.threads[t] == Idle(Failed(Io))
  }

  // ----- when a step can be taken -----

  /** The frame on which the thread holds a pin that no guard owns yet. */
  function PinOf(pc: Pc): Option<nat> {
    match pc
    case Load(_, _, _, stage) =>
      (match stage
       case Unpinning(f) => Some(f)
       case Finishing(f) => Some(f)
       case Returning(f) => Some(f)
       case _ => HoldOf(pc))
    case Flush(_, i, phase) => if phase.Visiting? || phase.Awaiting? then None else Some(i)
    case _ => None
  }

  /** The frame whose state, pin count or data the thread touches next. */
  function TouchOf(pc: Pc): Option<nat> {
    if pc.Load? && (pc.stage.Looking? || pc.stage.Reserving?) then Some(pc.stage.f) else PinOf(pc)
  }

  /** The frame that a loader has marked Evicting. */
  function HoldOf(pc: Pc): Option<nat> {
    if !pc.Load? then None
    else match pc.stage
      case Reserved(f, _) => Some(f)
      case WritingBack(f, _) => Some(f)
      case Cleaning(f, _) => Some(f)
      case Reading(f, _) => Some(f)
      case Replacing(f, _, _) => Some(f)
      case RemovingOld(f, _) => Some(f)
      case Publishing(f) => Some(f)
      case Restoring(f, _) => Some(f)
      case _ => None
  }

  predicate Writing(s: State, f: nat) {
    exists g :: g in s.guards && s.guards[g].frame == f && s.guards[g].writing
  }

  /** Some flush holds the data lock of frame `f` for reading. */
  predicate ReadLocked(s: State, f: nat) {
    exists t :: 0 <= t < |s.threads| && LocksData(s.threads[t], f)
  }

  predicate LocksData(pc: Pc, f: nat) {
    pc.Flush? && pc.i == f && (pc.phase.Locked? || pc.phase.Wrote?)
  }

  /** The thread is blocked: on an unfinished load, or on the data lock. */
  predicate Blocked(s: State, t: nat)
    requires t < |s.threads|
  {
    match s.threads[t]
    case Waiting(_, _, q) => q !in s.done
    case Load(_, _, _, AwaitingVictim(q)) => q !in s.done
    case Flush(_, _, Awaiting(q)) => q !in s.done
    case Flush(_, i, Locking(_)) => Writing(s, i)
    case _ => false
  }

  /** The thread's next step is a call into the store. */
  predicate AtStore(pc: Pc) {
    match pc
    case Load(_, _, _, stage) => stage.WritingBack? || stage.Reading?
    case Flush(_, _, phase) => phase.Locked?
    case _ => false
  }

  /** An index out of bounds, or a missing entry that restore_failed_load expects, is a panic. */
  predicate Panics(s: State, t: nat)
    requires t < |s.threads|
  {
    var pc := s.threads[t];
    || (TouchOf(pc).Some? && TouchOf(pc).value >= |s.frames|)
    || (pc.Lookup? && pc.page in s.table && s.table[pc.page].Ready? && s.table[pc.page].index >= |s.frames|)
    || (pc.Load? && pc.stage.Choosing? && |s.frames| == 0)
    || (pc.Load? && pc.stage.Restoring? && pc.stage.prior.Some?
        && (pc.stage.prior.value !in s.table || s.table[pc.stage.prior.value] != Leaving(pc.pending)))
    || (pc.Load? && pc.stage.Unpinning? && s.frames[pc.stage.f].pin == 0)
    || (pc.Flush? && (pc.phase.Releasing? || pc.phase.Aborting?) && s.frames[pc.i].pin == 0)
  }

  predicate CanRun(s: State, t: nat) {
    t < |s.threads| && !s.threads[t].Idle? && !AtStore(s.threads[t]) && !Blocked(s, t) && !Panics(s, t)
  }

  /** The page and frame of a pending store write. */
  function WriteTarget(pc: Pc): Option<(PageId, nat)> {
    match pc
    case Load(_, _, _, WritingBack(f, prior)) => if prior.Some? then Some((prior.value, f)) else None
    case Flush(_, i, Locked(x)) => Some((x, i))
    case _ => None
  }

  predicate Enabled(s: State, a: Action) {
    match a
    case StartFetch(t, _, _) => t < |s.threads| && s.threads[t].Idle?
    case StartFlush(t) => t < |s.threads| && s.threads[t].Idle?
    case Run(t) => CanRun(s, t)
    case StoreWrite(t, outcome) =>
      && t < |s.threads| && !Panics(s, t)
      && var target := WriteTarget(s.threads[t]);
         target.Some? && target.value.0 in s.store && target.value.1 < |s.frames|
    case StoreRead(t, ok) =>
      && t < |s.threads| && !Panics(s, t) && s.threads[t].Load? && s.threads[t].stage.Reading?
      && (ok ==> s.threads[t].page in s.store)
    case BeginWrite(g) =>
      && g in s.guards && s.guards[g].frame < |s.frames|
      && !Writing(s, s.guards[g].frame) && !ReadLocked(s, s.guards[g].frame)
    case EndWrite(g, _) =>
      && g in s.guards && s.guards[g].writing && s.guards[g].frame < |s.frames|
      && s.guards[g].page in s.history
    case DropGuard(g) =>
      && g in s.guards && !s.guards[g].writing && s.guards[g].frame < |s.frames|
      && s.frames[s.guards[g].frame].pin > 0
  }

  // ----- the step function -----

  function StoreWriteStep(s: State, t: nat, outcome: WriteOutcome): State
    requires Enabled(s, StoreWrite(t, outcome))
  {
    var pc := s.threads[t];
    var (x, f) := WriteTarget(pc).value;
    var next :=
      if pc.Load? then
        pc.(stage := if outcome.Written? then Cleaning(f, pc.stage.prior) else Restoring(f, pc.stage.prior))
      else pc.(phase := if outcome.Written? then Wrote(x) else Aborting(x));
    Goto(s, t, next).(store := s.store[x := StoreAfter(s.store[x], s.frames[f].data, outcome)])
  }

  function StoreReadStep(s: State, t: nat, ok: bool): State
    requires Enabled(s, StoreRead(t, ok))
  {
    var pc := s.threads[t];
    var Reading(f, prior) := pc.stage;
    GotoStage(s, t, if ok then Replacing(f, prior, s.store[pc.page].image) else Restoring(f, prior))
  }

  /** The versions a flush that starts now has to make durable. */
  function VersionsNow(s: State): map<PageId, nat> {
    map p | p in s.history && |s.history[p]| > 0 :: |s.history[p]| - 1
  }

  /** The next critical section of thread `t`, when it is not a store call. */
  function RunStep(s: State, t: nat): (r: State)
    requires CanRun(s, t)
    ensures KeepsOthers(s, r, t)
  {
    match s.threads[t]
    case Lookup(_, _) => LookupStep(s, t)
    case Waiting(page, mode, _) => Goto(s, t, Lookup(page, mode))
    case Claiming(_, _) => ClaimStep(s, t)
    case Load(_, _, _, _) => LoadStep(s, t)
    case Flush(_, _, _) => FlushStep(s, t)
    case Idle(_) => s
  }

  function Apply(s: State, a: Action): State
    requires Enabled(s, a)
  {
    match a
    case StartFetch(t, page, mode) => Goto(s, t, Lookup(page, mode))
    case StartFlush(t) => Goto(s, t, Flush(VersionsNow(s), 0, Visiting))
    case Run(t) => RunStep(s, t)
    case StoreWrite(t, outcome) => StoreWriteStep(s, t, outcome)
    case StoreRead(t, ok) => StoreReadStep(s, t, ok)
    case BeginWrite(g) =>
      var f := s.guards[g].frame;
      SetFrame(s, f, s.frames[f].(dirty := true)).(guards := s.guards[g := s.guards[g].(writing := true)])
    case EndWrite(g, bytes) =>
      var Guard(p, f, _) := s.guards[g];
      SetFrame(s, f, s.frames[f].(data := Image(bytes, |s.history[p]|)))
        .(guards := s.guards[g := s.guards[g].(writing := false)],
          history := s.history[p := s.history[p] + [bytes]])
    case DropGuard(g) =>
      var f := s.guards[g].frame;
      SetFrame(s, f, Unpinned(s.frames[f])).(guards := s.guards - {g})
  }

  // ----- initial states and runs -----

  predicate Init(s: State) {
    && |s.frames| > 0
    && (forall f :: 0 <= f < |s.frames| ==>
          s.frames[f].state == Empty && s.frames[f].pin == 0 && !s.frames[f].dirty && !s.frames[f].referenced)
    && s.table == map[] && s.guards == map[] && s.done == {} && s.hand == 0
    && (forall t :: 0 <= t < |s.threads| ==> s.threads[t] == Idle(Nothing))
    && s.history.Keys == s.store.Keys
    && (forall p :: p in s.store ==> s.store[p] == Cell(Image(s.store[p].image.bytes, 0), false)
                                     && s.history[p] == [s.store[p].image.bytes])
  }

  /** `actions` lead from `s` to `last`, one enabled step after the other. */
  predicate Leads(s: State, actions: seq<Action>, last: State)
    decreases |actions|
  {
    if actions == [] then s == last
    else Enabled(s, actions[0]) && Leads(Apply(s, actions[0]), actions[1..], last)
  }
}
