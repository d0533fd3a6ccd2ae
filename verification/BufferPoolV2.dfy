/** The second buffer pool, behind a read-write lock around its page table. */
module BufferPoolV2 {
  // Frames announce an eviction in progress, and the scan reserves the frames it looks at. Each of the two
  // critical sections of a fetch is one method, so other threads' operations may come in between.

  import opened Storage
  import opened Clock
  import opened ClockScan
  import opened PagePool
  import opened PagePoolProofs
  import opened PagePoolRuns
  import opened PagePoolFlush

  datatype FrameState = Empty | Holding(page: PageId) | Evicting

  datatype Slot = Slot(state: FrameState, data: Bytes, dirty: bool)

  function AsFrame(slot: Slot): Frame {
    Frame(match slot.state case Holding(p) => Some(p) case _ => None, slot.data, slot.dirty)
  }

  function AsFrames(slots: seq<Slot>): (frames: seq<Frame>)
    ensures |frames| == |slots| && forall i :: 0 <= i < |slots| ==> frames[i] == AsFrame(slots[i])
  {
    seq(|slots|, i requires 0 <= i < |slots| => AsFrame(slots[i]))
  }

  class BufferPool {
    var store: map<PageId, Bytes>
    var slots: seq<Slot>
    var pageTable: map<PageId, nat>
    var hits: nat
    var misses: nat
    var evictions: nat
    const scanner: Scanner

    function State(): Pool
      reads this, scanner
    {
      Pool(store, AsFrames(slots), scanner.State(), pageTable, hits, misses, evictions)
    }

    /** Whoever takes the table's lock finds no eviction in progress. */
    ghost predicate NoneEvicting()
      reads this
    {
      forall i :: 0 <= i < |slots| ==> !slots[i].state.Evicting?
    }

    ghost predicate Valid()
      reads this, scanner
    {
      Inv(State()) && NoneEvicting()
    }

    constructor (capacity: nat, store: map<PageId, Bytes>, zeroes: Bytes)
      requires capacity > 0
      ensures fresh(scanner) && Valid()
      ensures State() == EmptyPool(capacity, store, zeroes) && Content(State()) == store
    {
      scanner := new Scanner(capacity, true);
      this.store := store;
      slots := seq(capacity, i => Slot(Empty, zeroes, false));
      pageTable, hits, misses, evictions := map[], 0, 0, 0;
      new;
      EmptyPoolIsTheStore(capacity, store, zeroes);
    }

    // ----- fetch -----

    method PinFrame(p: PageId, f: nat, mode: AccessMode) returns (reply: Reply)
      requires f < |scanner.gauges|
      modifies this`hits, scanner
      ensures scanner.State() == Pin(old(scanner.State()), Guard(p, f), mode) && reply == Got(Guard(p, f))
      ensures hits == old(hits) + 1
    {
      scanner.PinFrame(Guard(p, f), mode);
      hits := hits + 1;
      reply := Got(Guard(p, f));
    }

    /** First section, under the table's read lock: a hit is the whole fetch, a miss changes nothing. */
    method TryHit(p: PageId, mode: AccessMode) returns (reply: Option<Reply>)
      requires Valid()
      modifies this, scanner
      ensures reply.Some? <==> p in old(pageTable)
      ensures if reply.Some? then Some((State(), reply.value)) == Some(Hit(old(State()), p, mode))
              else State() == old(State())
      ensures slots == old(slots)
    {
      if p !in pageTable { return None; }
      var hit := PinFrame(p, pageTable[p], mode);
      reply := Some(hit);
    }

    /** Second section, under the table's write lock, with the page looked up again. */
    method HitOrLoad(p: PageId, mode: AccessMode, around: Surroundings) returns (reply: Reply)
      requires Valid()
      modifies this, scanner
      ensures (State(), reply) == Fetch(old(State()), p, mode, around) && NoneEvicting()
    {
      if p in pageTable {
        reply := PinFrame(p, pageTable[p], mode);
      } else {
        reply := LoadPage(p, around);
      }
    }

    /** The second section keeps every page, and its guard sees the page that was asked for. */
    method FetchLocked(p: PageId, mode: AccessMode, around: Surroundings) returns (reply: Reply)
      requires Valid()
      modifies this, scanner
      ensures Valid() && (State(), reply) == Fetch(old(State()), p, mode, around)
      ensures Content(State()) == old(Content(State()))
      ensures reply.Got? ==> Shows(reply.guard, p)
    {
      FetchRefines(State(), p, mode, around);
      reply := HitOrLoad(p, mode, around);
    }

    /** The guard is held, and its frame shows the content of page `p`. */
    ghost predicate Shows(g: Guard, p: PageId)
      reads this, scanner
    {
      && TableAgrees(State()) && g in scanner.guards && g.page == p && g.frame < |slots|
      && p in Content(State()) && slots[g.frame].data == Content(State())[p]
    }

    /**
    Both sections. Between a miss in the first and the second anything may happen to the pool; the
    fetch is then one fetch of the page pool as the other threads have left it.
    */
    method FetchPage(p: PageId, mode: AccessMode, around: Surroundings, meanwhile: seq<Event>)
      returns (reply: Reply, ghost ms: seq<Moment>)
      requires Valid()
      modifies this, scanner
      ensures Valid() && |ms| > 0 && ms[0].pool == old(State()) && Faithful(ms[0], 0)
      ensures Path(ms, if p in old(pageTable) then [] else meanwhile)
      ensures var m := ms[|ms| - 1];
              && Inv(m.pool) && (State(), reply) == Fetch(m.pool, p, mode, around) && Content(State()) == m.pages
      ensures reply.Got? ==> Shows(reply.guard, p)
    {
      var hit := TryHit(p, mode);
      if hit.Some? {
        FetchRefines(old(State()), p, mode, around);
        return hit.value, [Now(old(State()))];
      }
      reply, ms := FetchMissed(p, mode, around, meanwhile);
    }

    /** What follows a miss in the first section. */
    method FetchMissed(p: PageId, mode: AccessMode, around: Surroundings, meanwhile: seq<Event>)
      returns (reply: Reply, ghost ms: seq<Moment>)
      requires Valid()
      modifies this, scanner
      ensures Valid() && Path(ms, meanwhile) && ms[0].pool == old(State()) && Faithful(ms[0], 0)
      ensures var m := ms[|meanwhile|];
              && Inv(m.pool) && (State(), reply) == Fetch(m.pool, p, mode, around) && Content(State()) == m.pages
      ensures reply.Got? ==> Shows(reply.guard, p)
    {
      ms := RunFrom(State(), meanwhile);
      PerformAll(meanwhile);
      reply := FetchLocked(p, mode, around);
    }

    method LoadPage(p: PageId, around: Surroundings) returns (reply: Reply)
      requires Valid() && p !in pageTable
      modifies this, scanner
      ensures (State(), reply) == Fetch(old(State()), p, Normal, around) && NoneEvicting()
    {
      ghost var c, chosen := ScanReserves(State(), p, around.drops);
      var choice := scanner.ChooseVictim(around.drops);
      if choice.AllPinned? { return Err(AllFramesPinned); }
      assert scanner.gauges[choice.index].pin == 1;
      reply := ReplaceVictim(choice.index, p, around.write, around.read);
    }

    method SetState(f: nat, state: FrameState)
      requires f < |slots|
      modifies this`slots
      ensures slots == old(slots)[f := old(slots[f]).(state := state)]
    {
      slots := slots[f := slots[f].(state := state)];
    }

    /** The pool as it is but for the eviction that frame `f` announces. */
    ghost function Restored(f: nat, previous: FrameState): Pool
      reads this, scanner
      requires f < |slots|
    {
      State().(frames := AsFrames(slots[f := slots[f].(state := previous)]))
    }

    /** The victim announces that it is being evicted, and takes that back if the store fails. */
    method ReplaceVictim(victim: nat, p: PageId, write: WriteOutcome, read: bool) returns (reply: Reply)
      requires victim < |slots| == |scanner.gauges| && NoneEvicting() && scanner.gauges[victim].pin == 1
      modifies this, scanner
      ensures (State(), reply) == Replace(old(State()), victim, p, write, read) && NoneEvicting()
    {
      ghost var before := State();
      var previous := slots[victim].state;
      var oldPageId := match previous
        case Empty => None
        case Holding(q) => Some(q)
        case Evicting => assert false; None;
      SetState(victim, Evicting);
      assert Restored(victim, previous) == before;
      if oldPageId.Some? && slots[victim].dirty {
        var written := WriteVictim(victim, previous, write);
        if !written {
          GiveBack(victim, previous);
          return Err(Io);
        }
      }
      reply := LoadOver(victim, previous, p, read);
    }

    method WriteVictim(victim: nat, previous: FrameState, write: WriteOutcome) returns (written: bool)
      requires victim < |slots| && previous.Holding? && slots[victim].dirty
      modifies this`store, this`slots
      ensures |slots| == |old(slots)| && written == write.Written?
      ensures Restored(victim, previous) == WriteBack(old(Restored(victim, previous)), victim, write)
      ensures slots == old(slots)[victim := old(slots[victim]).(dirty := !written)]
    {
      ghost var before := Restored(victim, previous);
      store := StoreAfter(store, previous.page, slots[victim].data, write);
      written := write.Written?;
      if written { slots := slots[victim := slots[victim].(dirty := false)]; }
      assert Restored(victim, previous).frames == WriteBack(before, victim, write).frames;
    }

    method LoadOver(victim: nat, previous: FrameState, p: PageId, read: bool) returns (reply: Reply)
      requires victim < |slots| == |scanner.gauges| && scanner.gauges[victim].pin == 1 && !previous.Evicting?
      requires forall i :: 0 <= i < |slots| && i != victim ==> !slots[i].state.Evicting?
      modifies this, scanner
      ensures NoneEvicting()
      ensures (State(), reply) == if !read || p !in old(store)
                                  then (Release(old(Restored(victim, previous)), victim), Err(Io))
                                  else Install(old(Restored(victim, previous)), victim, p)
    {
      ghost var before := Restored(victim, previous);
      if !read || p !in store {
        GiveBack(victim, previous);
        return Err(Io);
      }
      InstallPage(victim, p, if previous.Holding? then Some(previous.page) else None);
      assert State().frames == Install(before, victim, p).0.frames;
      reply := Got(Guard(p, victim));
    }

    method GiveBack(victim: nat, previous: FrameState)
      requires victim < |slots| == |scanner.gauges| && scanner.gauges[victim].pin == 1
      modifies this`slots, scanner`gauges
      ensures slots == old(slots)[victim := old(slots[victim]).(state := previous)]
      ensures scanner.gauges == old(scanner.gauges)[victim := old(scanner.gauges[victim]).(pin := 0)]
    {
      SetState(victim, previous);
      scanner.Unpin(victim);
    }

    method InstallPage(victim: nat, p: PageId, oldPageId: Option<PageId>)
      requires victim < |slots| == |scanner.gauges| && p in store
      modifies this`slots, this`pageTable, this`misses, this`evictions, scanner`gauges, scanner`guards
      ensures slots == old(slots)[victim := Slot(Holding(p), store[p], false)]
      ensures scanner.gauges == old(scanner.gauges)[victim := old(scanner.gauges[victim]).(usage := 1)]
      ensures pageTable == (if oldPageId.Some? then old(pageTable) - {oldPageId.value} else old(pageTable))[p := victim]
      ensures misses == old(misses) + 1 && evictions == old(evictions) + if oldPageId.Some? then 1 else 0
      ensures scanner.guards == old(scanner.guards) + multiset{Guard(p, victim)}
    {
      slots := slots[victim := slots[victim].(data := store[p])];
      slots := slots[victim := slots[victim].(dirty := false)];
      SetState(victim, Holding(p));
      if oldPageId.Some? { pageTable := pageTable - {oldPageId.value}; }
      pageTable := pageTable[p := victim];
      misses := misses + 1;
      if oldPageId.Some? { evictions := evictions + 1; }
      scanner.Loaded(Guard(p, victim));
    }

    // ----- guards -----

    method WritePage(g: Guard, data: Bytes)
      requires Valid() && g in scanner.guards
      modifies this`slots
      ensures Valid() && State() == WriteVia(old(State()), g, data)
      ensures Content(State()) == old(Content(State()))[g.page := data]
    {
      ghost var after := WriteVia(State(), g, data);
      WriteViaRefines(State(), g, data);
      SetData(g.frame, data);
      assert State().frames == after.frames;
    }

    method SetData(f: nat, data: Bytes)
      requires f < |slots|
      modifies this`slots
      ensures slots == old(slots)[f := old(slots[f]).(data := data, dirty := true)]
    {
      slots := slots[f := slots[f].(dirty := true)];
      slots := slots[f := slots[f].(data := data)];
    }

    method ReadPage(g: Guard) returns (data: Bytes)
      requires Valid() && g in scanner.guards
      ensures g.page in Content(State()) && data == Content(State())[g.page]
    {
      GuardSees(State(), g);
      data := slots[g.frame].data;
    }

    // ----- what other threads do -----

    /** Any event that finds no lock in its way; a fetch takes its second section, which also answers hits. */
    method Perform(e: Event)
      requires Valid()
      modifies this, scanner
      ensures Valid() && State() == Apply(old(State()), e)
    {
      StepRefines(State(), e);
      match e
      case FetchEvent(p, mode, around) => var _ := HitOrLoad(p, mode, around);
      case WriteEvent(g, data) => if g in scanner.guards { WritePage(g, data); }
      case DropEvent(g) => scanner.DropGuard(g);
      case FlushFrameEvent(f, outcome) => if f < |slots| { var _ := FlushFrameOf(f, outcome); }
    }

    method PerformAll(es: seq<Event>)
      requires Valid()
      modifies this, scanner
      ensures Valid() && State() == ApplyAll(old(State()), es)
      decreases |es|
    {
      if es != [] {
        PerformAll(es[..|es| - 1]);
        Perform(es[|es| - 1]);
      }
    }

    // ----- flush -----

    /** One frame's part of a flush. */
    method FlushFrameOf(f: nat, outcome: WriteOutcome) returns (ok: bool)
      requires Valid() && f < |slots|
      modifies this`store, this`slots
      ensures Valid() && State() == Apply(old(State()), FlushFrameEvent(f, outcome))
      ensures ok <==> Cleans(old(State()), FlushFrameEvent(f, outcome), f)
    {
      FlushFrameRefines(State(), f, outcome);
      if !slots[f].state.Holding? || !slots[f].dirty { return true; }
      ok := WriteSlot(f, outcome);
    }

    method WriteSlot(f: nat, outcome: WriteOutcome) returns (ok: bool)
      requires f < |slots| && slots[f].state.Holding? && slots[f].dirty
      modifies this`store, this`slots
      ensures State() == WriteBack(old(State()), f, outcome) && ok == outcome.Written?
      ensures |slots| == |old(slots)| && (old(NoneEvicting()) ==> NoneEvicting())
    {
      ghost var before := State();
      store := StoreAfter(store, slots[f].state.page, slots[f].data, outcome);
      ok := outcome.Written?;
      if ok { slots := slots[f := slots[f].(dirty := false)]; }
      assert State().frames == WriteBack(before, f, outcome).frames;
    }

    /** Others go first, then comes the visit of frame `f` in a flush that has visited those before it. */
    method VisitFrame(f: nat, outcomes: map<nat, WriteOutcome>, meanwhile: seq<seq<Event>>, ghost first: Pool)
      returns (ok: bool)
      requires f < |first.frames| && NoneEvicting() && Visited(first, State(), outcomes, meanwhile, f)
      modifies this, scanner
      ensures NoneEvicting() && State() == ApplyAll(first, Interleaved(outcomes, meanwhile, f + 1))
      ensures ok <==> VisitCleans(first, outcomes, meanwhile, f)
    {
      ghost var now := State();
      CleanIsSound(first, outcomes, meanwhile, f);
      ApplyAllKeeps(first, Interleaved(outcomes, meanwhile, f));
      PerformAll(Others(meanwhile, f));
      ApplyAllKeeps(now, Others(meanwhile, f));
      ghost var between := State();
      ok := FlushFrameOf(f, OutcomeFor(f, outcomes));
      NextRound(first, now, outcomes, meanwhile, f, between, State());
    }

    /**
    Write every dirty frame back, stopping at the first failure. Before each frame other threads use
    their guards, hit pages and flush frames at will; after success the store holds of every page,
    unless its frame has been torn since its visit, what the page was at some moment of the flush.
    */
    method FlushAll(outcomes: map<nat, WriteOutcome>, meanwhile: seq<seq<Event>>)
      returns (ok: bool, ghost visits: nat, ghost log: FlushLog)
      requires Valid() && AllCalm(State(), meanwhile)
      modifies this, scanner
      ensures Valid() && State() == ApplyAll(old(State()), Interleaved(outcomes, meanwhile, visits))
      ensures Stops(old(State()), outcomes, meanwhile, visits, ok)
      ensures ok ==> Flushed(log, old(State()), State(), outcomes, meanwhile)
    {
      ghost var first := State();
      ok, visits := VisitFrames(outcomes, meanwhile, first);
      ApplyAllKeeps(first, Interleaved(outcomes, meanwhile, visits));
      if ok { log := FlushDone(first, State(), outcomes, meanwhile); } else { log := FlushLog([], [], []); }
    }

    method VisitFrames(outcomes: map<nat, WriteOutcome>, meanwhile: seq<seq<Event>>, ghost first: Pool)
      returns (ok: bool, ghost visits: nat)
      requires NoneEvicting() && |slots| == |first.frames| && Visited(first, State(), outcomes, meanwhile, 0)
      modifies this, scanner
      ensures NoneEvicting() && State() == ApplyAll(first, Interleaved(outcomes, meanwhile, visits))
      ensures Stops(first, outcomes, meanwhile, visits, ok)
    {
      for f := 0 to |slots|
        invariant NoneEvicting() && Visited(first, State(), outcomes, meanwhile, f)
      {
        ok := VisitFrame(f, outcomes, meanwhile, first);
        if !ok { return ok, f + 1; }
      }
      return true, |first.frames|;
    }
  }
}
