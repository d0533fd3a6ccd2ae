/** The first buffer pool: one mutex around page table, frames, clock hand and statistics. */
module BufferPoolV1 {
  // The mutex keeps other threads from fetching and flushing; guards write and are dropped without it.

  import opened Storage
  import opened Clock
  import opened ClockScan
  import opened PagePool
  import opened PagePoolProofs
  import opened PagePoolRuns
  import opened PagePoolFlush

  /** What other threads can do to the pool while one holds the mutex. */
  predicate NeedsNoLock(e: Event) {
    e.WriteEvent? || e.DropEvent?
  }

  predicate NeedNoLock(meanwhile: seq<seq<Event>>) {
    forall k, i :: 0 <= k < |meanwhile| && 0 <= i < |meanwhile[k]| ==> NeedsNoLock(meanwhile[k][i])
  }

  lemma GuardUseIsCalm(first: Pool, meanwhile: seq<seq<Event>>)
    requires NeedNoLock(meanwhile)
    ensures AllCalm(first, meanwhile) && OneFlush(meanwhile)
  {
    forall k, i | 0 <= k < |meanwhile| && 0 <= i < |meanwhile[k]|
      ensures Calm(first, meanwhile[k][i]) && !meanwhile[k][i].FlushFrameEvent?
    {
      assert NeedsNoLock(meanwhile[k][i]);
    }
  }

  class BufferPool {
    var store: map<PageId, Bytes>
    var frames: seq<Frame>
    var pageTable: map<PageId, nat>
    var hits: nat
    var misses: nat
    var evictions: nat
    const scanner: Scanner

    function State(): Pool
      reads this, scanner
    {
      Pool(store, frames, scanner.State(), pageTable, hits, misses, evictions)
    }

    ghost predicate Valid()
      reads this, scanner
    {
      Inv(State())
    }

    constructor (capacity: nat, store: map<PageId, Bytes>, zeroes: Bytes)
      requires capacity > 0
      ensures fresh(scanner) && Valid()
      ensures State() == EmptyPool(capacity, store, zeroes) && Content(State()) == store
    {
      scanner := new Scanner(capacity, false);
      this.store := store;
      frames := seq(capacity, i => Frame(None, zeroes, false));
      pageTable, hits, misses, evictions := map[], 0, 0, 0;
      new;
      EmptyPoolIsTheStore(capacity, store, zeroes);
    }

    // ----- fetch -----

    /** A hit or a miss; either way the guard's frame holds the page that was asked for. */
    method FetchPage(p: PageId, mode: AccessMode, around: Surroundings) returns (reply: Reply)
      requires Valid()
      modifies this, scanner
      ensures Valid() && (State(), reply) == Fetch(old(State()), p, mode, around)
      ensures Content(State()) == old(Content(State()))
      ensures reply.Got? ==> reply.guard in scanner.guards && reply.guard.page == p
                             && frames[reply.guard.frame].data == Content(State())[p]
    {
      FetchRefines(State(), p, mode, around);
      reply := FetchLocked(p, mode, around);
    }

    method FetchLocked(p: PageId, mode: AccessMode, around: Surroundings) returns (reply: Reply)
      requires Valid()
      modifies this, scanner
      ensures (State(), reply) == Fetch(old(State()), p, mode, around)
    {
      if p in pageTable {
        var g := Guard(p, pageTable[p]);
        hits := hits + 1;
        scanner.PinFrame(g, mode);
        reply := Got(g);
      } else {
        reply := LoadPage(p, around);
      }
    }

    method LoadPage(p: PageId, around: Surroundings) returns (reply: Reply)
      requires Valid() && p !in pageTable
      modifies this, scanner
      ensures (State(), reply) == Fetch(old(State()), p, Normal, around)
    {
      ghost var c, chosen := ScanReserves(State(), p, around.drops);
      var choice := scanner.ChooseVictim(around.drops);
      if choice.AllPinned? { return Err(AllFramesPinned); }
      reply := ReplaceVictim(choice.index, p, around.write, around.read);
    }

    /** Write frame `f` to the store; it becomes clean if that succeeds. */
    method WriteFrame(f: nat, outcome: WriteOutcome) returns (ok: bool)
      requires f < |frames| && frames[f].page.Some? && frames[f].dirty
      modifies this`store, this`frames
      ensures State() == WriteBack(old(State()), f, outcome) && ok == outcome.Written?
    {
      store := StoreAfter(store, frames[f].page.value, frames[f].data, outcome);
      ok := outcome.Written?;
      if ok { frames := frames[f := frames[f].(dirty := false)]; }
    }

    method ReplaceVictim(victim: nat, p: PageId, write: WriteOutcome, read: bool) returns (reply: Reply)
      requires victim < |frames| == |scanner.gauges|
      modifies this, scanner
      ensures (State(), reply) == Replace(old(State()), victim, p, write, read)
    {
      var oldPageId := frames[victim].page;
      if oldPageId.Some? && frames[victim].dirty {
        var ok := WriteFrame(victim, write);
        if !ok {
          scanner.ClearPin(victim);
          return Err(Io);
        }
      }
      if !read || p !in store {
        scanner.ClearPin(victim);
        return Err(Io);
      }
      reply := InstallPage(victim, p);
    }

    method InstallPage(victim: nat, p: PageId) returns (reply: Reply)
      requires victim < |frames| == |scanner.gauges| && p in store
      modifies this, scanner
      ensures (State(), reply) == Install(old(State()), victim, p)
    {
      var oldPageId := frames[victim].page;
      if oldPageId.Some? { pageTable := pageTable - {oldPageId.value}; }
      frames := frames[victim := Frame(Some(p), store[p], false)];
      pageTable := pageTable[p := victim];
      misses := misses + 1;
      if oldPageId.Some? { evictions := evictions + 1; }
      scanner.Loaded(Guard(p, victim));
      reply := Got(Guard(p, victim));
    }

    // ----- guards -----

    /** A guard replaces its page's bytes; the frame becomes dirty. */
    method WritePage(g: Guard, data: Bytes)
      requires Valid() && g in scanner.guards
      modifies this`frames
      ensures Valid() && State() == WriteVia(old(State()), g, data)
      ensures Content(State()) == old(Content(State()))[g.page := data]
    {
      WriteViaRefines(State(), g, data);
      SetData(g.frame, data);
    }

    method SetData(f: nat, data: Bytes)
      requires f < |frames|
      modifies this`frames
      ensures frames == old(frames)[f := old(frames)[f].(data := data, dirty := true)]
    {
      frames := frames[f := frames[f].(dirty := true)];
      frames := frames[f := frames[f].(data := data)];
    }

    /** A guard reads what was last written to its page, wherever that was kept meanwhile. */
    method ReadPage(g: Guard) returns (data: Bytes)
      requires Valid() && g in scanner.guards
      ensures g.page in Content(State()) && data == Content(State())[g.page]
    {
      GuardSees(State(), g);
      data := frames[g.frame].data;
    }

    /** Another thread uses one of its guards. */
    method UseGuard(e: Event)
      requires Valid() && NeedsNoLock(e)
      modifies this`frames, scanner
      ensures Valid() && State() == Apply(old(State()), e)
    {
      StepRefines(State(), e);
      match e
      case WriteEvent(g, data) => if g in scanner.guards { WritePage(g, data); }
      case DropEvent(g) => scanner.DropGuard(g);
    }

    method UseGuards(es: seq<Event>)
      requires Valid() && forall k :: 0 <= k < |es| ==> NeedsNoLock(es[k])
      modifies this`frames, scanner
      ensures Valid() && State() == ApplyAll(old(State()), es)
      decreases |es|
    {
      if es != [] {
        UseGuards(es[..|es| - 1]);
        UseGuard(es[|es| - 1]);
      }
    }

    // ----- flush -----

    /** One frame's part of a flush. */
    method FlushFrameOf(f: nat, outcome: WriteOutcome) returns (ok: bool)
      requires Valid() && f < |frames|
      modifies this`store, this`frames
      ensures Valid() && State() == Apply(old(State()), FlushFrameEvent(f, outcome))
      ensures ok <==> Cleans(old(State()), FlushFrameEvent(f, outcome), f)
    {
      FlushFrameRefines(State(), f, outcome);
      if frames[f].page.None? || !frames[f].dirty { return true; }
      ok := WriteFrame(f, outcome);
    }

    /** Guards are used, then comes the visit of frame `f` in a flush that has visited those before it. */
    method VisitFrame(f: nat, outcomes: map<nat, WriteOutcome>, meanwhile: seq<seq<Event>>, ghost first: Pool)
      returns (ok: bool)
      requires f < |first.frames| && Visited(first, State(), outcomes, meanwhile, f)
      requires NeedNoLock(meanwhile)
      modifies this`store, this`frames, scanner
      ensures State() == ApplyAll(first, Interleaved(outcomes, meanwhile, f + 1))
      ensures ok <==> VisitCleans(first, outcomes, meanwhile, f)
    {
      ghost var now := State();
      CleanIsSound(first, outcomes, meanwhile, f);
      ApplyAllKeeps(first, Interleaved(outcomes, meanwhile, f));
      UseGuards(Others(meanwhile, f));
      ApplyAllKeeps(now, Others(meanwhile, f));
      ghost var between := State();
      ok := FlushFrameOf(f, OutcomeFor(f, outcomes));
      NextRound(first, now, outcomes, meanwhile, f, between, State());
    }

    /**
    Write every dirty frame back, stopping at the first failure. Before each frame other threads use
    their guards at will; after success the store still holds of every page what the page was at
    some moment of the flush.
    */
    method FlushAll(outcomes: map<nat, WriteOutcome>, meanwhile: seq<seq<Event>>)
      returns (ok: bool, ghost visits: nat, ghost log: FlushLog)
      requires Valid() && NeedNoLock(meanwhile)
      modifies this`store, this`frames, scanner
      ensures Valid() && State() == ApplyAll(old(State()), Interleaved(outcomes, meanwhile, visits))
      ensures Stops(old(State()), outcomes, meanwhile, visits, ok)
      ensures ok ==> Flushed(log, old(State()), State(), outcomes, meanwhile)
      ensures ok ==> forall p :: p in old(store) ==> HoldsMoment(log, p, |log.es|)
    {
      ghost var first := State();
      ok, visits := VisitFrames(outcomes, meanwhile, first);
      ApplyAllKeeps(first, Interleaved(outcomes, meanwhile, visits));
      GuardUseIsCalm(first, meanwhile);
      if ok { log := FlushDone(first, State(), outcomes, meanwhile); } else { log := FlushLog([], [], []); }
    }

    method VisitFrames(outcomes: map<nat, WriteOutcome>, meanwhile: seq<seq<Event>>, ghost first: Pool)
      returns (ok: bool, ghost visits: nat)
      requires |frames| == |first.frames| && Visited(first, State(), outcomes, meanwhile, 0)
      requires NeedNoLock(meanwhile)
      modifies this`store, this`frames, scanner
      ensures State() == ApplyAll(first, Interleaved(outcomes, meanwhile, visits))
      ensures Stops(first, outcomes, meanwhile, visits, ok)
    {
      for f := 0 to |frames|
        invariant Visited(first, State(), outcomes, meanwhile, f)
      {
        ok := VisitFrame(f, outcomes, meanwhile, first);
        if !ok { return ok, f + 1; }
      }
      return true, |first.frames|;
    }
  }
}
