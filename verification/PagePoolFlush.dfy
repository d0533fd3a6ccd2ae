/** Durability of a flush of a pool behind one lock. */
module PagePoolFlush {
  // A flush visits the frames in order. Between two visits guards write and are dropped, pages are hit, and
  // other flushes visit frames; the lock only keeps pages from being loaded and evicted.

  import opened Storage
  import opened Clock
  import opened PagePool
  import opened PagePoolProofs
  import opened PagePoolRuns

  /** What can happen while a flush holds the lock: pages that are hit are mapped all along. */
  ghost predicate Calm(s: Pool, e: Event) {
    e.FetchEvent? ==> e.page in s.table
  }

  /** The event writes frame `f` back, or finds nothing to write in it. */
  ghost predicate Cleans(s: Pool, e: Event, f: nat) {
    && e.FlushFrameEvent? && e.frame == f
    && (e.outcome.Written? || f >= |s.frames| || s.frames[f].page.None? || !s.frames[f].dirty)
  }

  /** A write of frame `f` that fails half way. */
  ghost predicate Tears(e: Event, f: nat) {
    e.FlushFrameEvent? && e.frame == f && e.outcome.Torn?
  }

  predicate TearsSome(e: Event) {
    e.FlushFrameEvent? && e.outcome.Torn?
  }

  /** A run under a flush that has visited frames 0 to |at| - 1; `at[k]` is the position of visit `k`. */
  datatype FlushLog = FlushLog(ms: seq<Moment>, es: seq<Event>, at: seq<nat>)

  ghost predicate CalmAt(log: FlushLog, i: nat)
    requires |log.ms| == |log.es| + 1 && i < |log.es|
  {
    Calm(log.ms[0].pool, log.es[i])
  }

  ghost predicate VisitsAt(log: FlushLog, k: nat)
    requires |log.ms| == |log.es| + 1 && k < |log.at|
  {
    && log.at[k] < |log.es| && Cleans(log.ms[log.at[k]].pool, log.es[log.at[k]], k)
    && (k > 0 ==> log.at[k - 1] < log.at[k])
  }

  ghost predicate Flushes(log: FlushLog) {
    && Path(log.ms, log.es) && Faithful(log.ms[0], 0)
    && (forall i | 0 <= i < |log.es| :: CalmAt(log, i))
    && (forall k | 0 <= k < |log.at| :: VisitsAt(log, k))
  }

  /** No write of frame `f` has failed half way since the flush visited it. */
  ghost predicate Intact(log: FlushLog, f: nat) {
    f < |log.at| ==> forall i :: log.at[f] < i < |log.es| ==> !Tears(log.es[i], f)
  }

  // ----- what one calm event can do to a page in the store -----

  /** Calm events map no page and unmap none. */
  ghost predicate SameMapping(a: Pool, b: Pool) {
    b.table == a.table && |b.frames| == |a.frames| && b.store.Keys == a.store.Keys
  }

  lemma CalmKeepsMapping(s: Pool, e: Event)
    requires Inv(s) && Calm(s, e)
    ensures SameMapping(s, Apply(s, e))
  {
    match e
    case FetchEvent(_, _, _) =>
    case WriteEvent(_, _) =>
    case DropEvent(_) =>
    case FlushFrameEvent(_, _) =>
  }

  /** A page's store copy stays, or becomes the page's content, or the page's frame has been torn. */
  lemma CalmStore(s: Pool, e: Event, p: PageId)
    requires Inv(s) && Calm(s, e) && p in s.store
    ensures p in Apply(s, e).store
    ensures Apply(s, e).store[p] == s.store[p] || Apply(s, e).store[p] == Content(s)[p]
            || (p in s.table && Tears(e, s.table[p]))
  {
    match e
    case FetchEvent(_, _, _) =>
    case WriteEvent(_, _) =>
    case DropEvent(_) =>
    case FlushFrameEvent(f, outcome) =>
  }

  /** A visit that cleans a frame leaves its page's content in the store. */
  lemma CleanedIsStored(s: Pool, e: Event, p: PageId)
    requires Inv(s) && p in s.table && Cleans(s, e, s.table[p])
    ensures p in Content(s) && p in Apply(s, e).store && Apply(s, e).store[p] == Content(s)[p]
  {
  }

  // ----- along the run -----

  /** The store holds what page `p` was at some moment up to `j`. */
  ghost predicate HoldsMoment(log: FlushLog, p: PageId, j: nat)
    requires j < |log.ms|
  {
    && p in log.ms[j].pool.store
    && exists i {:trigger log.ms[i]} ::
         0 <= i <= j && p in log.ms[i].pages && log.ms[j].pool.store[p] == log.ms[i].pages[p]
  }

  lemma FaithfulAt(log: FlushLog, j: nat)
    requires Flushes(log) && j <= |log.es|
    ensures Faithful(log.ms[j], 0)
  {
    PathIsFaithful(log.ms, log.es, j, 0);
  }

  lemma {:induction false} MappingStays(log: FlushLog, j: nat)
    requires Flushes(log) && j <= |log.es|
    ensures SameMapping(log.ms[0].pool, log.ms[j].pool)
  {
    if j > 0 {
      MappingStays(log, j - 1);
      MappingStep(log, j - 1);
    }
  }

  lemma MappingStep(log: FlushLog, j: nat)
    requires Flushes(log) && j < |log.es| && SameMapping(log.ms[0].pool, log.ms[j].pool)
    ensures SameMapping(log.ms[j].pool, log.ms[j + 1].pool)
  {
    FaithfulAt(log, j);
    assert CalmAt(log, j) && FollowsAt(log.ms, log.es, j);
    CalmKeepsMapping(log.ms[j].pool, log.es[j]);
  }

  lemma StoreStep(log: FlushLog, p: PageId, j: nat)
    requires Flushes(log) && j < |log.es| && HoldsMoment(log, p, j)
    requires p in log.ms[0].pool.table ==> !Tears(log.es[j], log.ms[0].pool.table[p])
    ensures HoldsMoment(log, p, j + 1)
  {
    FaithfulAt(log, j);
    MappingStays(log, j);
    assert CalmAt(log, j) && FollowsAt(log.ms, log.es, j);
    CalmStore(log.ms[j].pool, log.es[j], p);
    var i :| 0 <= i <= j && p in log.ms[i].pages && log.ms[j].pool.store[p] == log.ms[i].pages[p];
    var since := if log.ms[j + 1].pool.store[p] == log.ms[j].pool.store[p] then i else j;
    assert log.ms[j + 1].pool.store[p] == log.ms[since].pages[p];
  }

  lemma VisitHolds(log: FlushLog, p: PageId, f: nat)
    requires Flushes(log) && f < |log.at| && p in log.ms[0].pool.table && log.ms[0].pool.table[p] == f
    ensures log.at[f] < |log.es| && HoldsMoment(log, p, log.at[f] + 1)
  {
    assert VisitsAt(log, f);
    var j := log.at[f];
    FaithfulAt(log, j);
    MappingStays(log, j);
    assert FollowsAt(log.ms, log.es, j);
    CleanedIsStored(log.ms[j].pool, log.es[j], p);
    assert log.ms[j + 1].pool.store[p] == log.ms[j].pages[p];
  }

  lemma {:induction false} StillHolds(log: FlushLog, p: PageId, from: nat, j: nat)
    requires Flushes(log) && from <= j <= |log.es| && HoldsMoment(log, p, from)
    requires p in log.ms[0].pool.table ==>
               forall i :: from <= i < |log.es| ==> !Tears(log.es[i], log.ms[0].pool.table[p])
    ensures HoldsMoment(log, p, j)
    decreases j - from
  {
    if from < j {
      StillHolds(log, p, from, j - 1);
      StoreStep(log, p, j - 1);
    }
  }

  /**
  Durability of a flush: once every frame has been visited, the store holds of every page what
  the page was at some moment since the flush began, whatever guards, hits and other flushes did
  meanwhile, unless another flush's write of that page has failed half way since the visit.
  */
  lemma FlushIsDurable(log: FlushLog, p: PageId)
    requires Flushes(log) && |log.at| == |log.ms[0].pool.frames| && p in log.ms[0].pool.store
    requires p in log.ms[0].pool.table ==> Intact(log, log.ms[0].pool.table[p])
    ensures HoldsMoment(log, p, |log.es|)
  {
    if p in log.ms[0].pool.table {
      var f := log.ms[0].pool.table[p];
      VisitHolds(log, p, f);
      StillHolds(log, p, log.at[f] + 1, |log.es|);
    } else {
      FaithfulAt(log, 0);
      assert log.ms[0].pool.store[p] == log.ms[0].pages[p];
      StillHolds(log, p, 0, |log.es|);
    }
  }

  lemma OnlyWritesChangePages(a: Moment, e: Event, b: Moment)
    requires Follows(a, e, b) && !e.WriteEvent?
    ensures b.pages == a.pages
  {
  }

  lemma {:induction false} PagesStay(ms: seq<Moment>, es: seq<Event>, j: nat)
    requires Path(ms, es) && j <= |es| && forall i :: 0 <= i < |es| ==> !es[i].WriteEvent?
    ensures ms[j].pages == ms[0].pages
  {
    if j > 0 {
      PagesStay(ms, es, j - 1);
      assert FollowsAt(ms, es, j - 1);
      OnlyWritesChangePages(ms[j - 1], es[j - 1], ms[j]);
    }
  }

  /** If nobody writes meanwhile, the store ends up as the page map itself. */
  lemma UndisturbedFlush(log: FlushLog)
    requires Flushes(log) && |log.at| == |log.ms[0].pool.frames|
    requires forall i :: 0 <= i < |log.es| ==> !log.es[i].WriteEvent? && !TearsSome(log.es[i])
    ensures Inv(log.ms[|log.es|].pool) && log.ms[|log.es|].pool.store == Content(log.ms[|log.es|].pool)
  {
    var last := log.ms[|log.es|];
    FaithfulAt(log, |log.es|);
    MappingStays(log, |log.es|);
    assert last.pool.store.Keys == last.pages.Keys;
    forall p | p in last.pool.store ensures last.pool.store[p] == last.pages[p] {
      FlushIsDurable(log, p);
      var i :| 0 <= i <= |log.es| && p in log.ms[i].pages && last.pool.store[p] == log.ms[i].pages[p];
      PagesStay(log.ms, log.es, i);
      PagesStay(log.ms, log.es, |log.es|);
    }
  }

  /** Frame `f` has nothing to be written back. */
  ghost predicate CleanAt(s: Pool, f: nat) {
    f < |s.frames| && s.frames[f].page.Some? ==> !s.frames[f].dirty
  }

  lemma VisitCleansFrame(s: Pool, e: Event, f: nat)
    requires Inv(s) && Cleans(s, e, f)
    ensures CleanAt(Apply(s, e), f)
  {
  }

  lemma StaysClean(s: Pool, e: Event, f: nat)
    requires Inv(s) && Calm(s, e) && !e.WriteEvent? && CleanAt(s, f)
    ensures CleanAt(Apply(s, e), f)
  {
    match e
    case FetchEvent(_, _, _) =>
    case DropEvent(_) =>
    case FlushFrameEvent(_, _) =>
  }

  lemma CleanAfterVisit(log: FlushLog, f: nat)
    requires Flushes(log) && f < |log.at|
    ensures log.at[f] < |log.es| && CleanAt(log.ms[log.at[f] + 1].pool, f)
  {
    assert VisitsAt(log, f);
    FaithfulAt(log, log.at[f]);
    assert FollowsAt(log.ms, log.es, log.at[f]);
    VisitCleansFrame(log.ms[log.at[f]].pool, log.es[log.at[f]], f);
  }

  lemma CleanStep(log: FlushLog, f: nat, j: nat)
    requires Flushes(log) && j < |log.es| && !log.es[j].WriteEvent? && CleanAt(log.ms[j].pool, f)
    ensures CleanAt(log.ms[j + 1].pool, f)
  {
    FaithfulAt(log, j);
    MappingStays(log, j);
    assert CalmAt(log, j) && FollowsAt(log.ms, log.es, j);
    StaysClean(log.ms[j].pool, log.es[j], f);
  }

  lemma {:induction false} CleanFrom(log: FlushLog, f: nat, from: nat, j: nat)
    requires Flushes(log) && from <= j <= |log.es| && CleanAt(log.ms[from].pool, f)
    requires forall i :: 0 <= i < |log.es| ==> !log.es[i].WriteEvent?
    ensures CleanAt(log.ms[j].pool, f)
    decreases j
  {
    if from < j {
      CleanFrom(log, f, from, j - 1);
      CleanStep(log, f, j - 1);
    }
  }

  /** If nobody writes meanwhile, no frame is left dirty. */
  lemma UndisturbedFlushCleans(log: FlushLog, f: nat)
    requires Flushes(log) && |log.at| == |log.ms[0].pool.frames| && f < |log.at|
    requires forall i :: 0 <= i < |log.es| ==> !log.es[i].WriteEvent?
    ensures CleanAt(log.ms[|log.es|].pool, f)
  {
    CleanAfterVisit(log, f);
    CleanFrom(log, f, log.at[f] + 1, |log.es|);
  }

  // ----- the log of a flush -----

  /** What others do just before visit `k`. */
  function Others(meanwhile: seq<seq<Event>>, k: nat): seq<Event> {
    if k < |meanwhile| then meanwhile[k] else []
  }

  function Visit(k: nat, outcomes: map<nat, WriteOutcome>): Event {
    FlushFrameEvent(k, OutcomeFor(k, outcomes))
  }

  /** The first `n` visits of a flush and what others do before each of them. */
  function Interleaved(outcomes: map<nat, WriteOutcome>, meanwhile: seq<seq<Event>>, n: nat): seq<Event> {
    if n == 0 then []
    else Interleaved(outcomes, meanwhile, n - 1) + Others(meanwhile, n - 1) + [Visit(n - 1, outcomes)]
  }

  /** The events before visit `k`. */
  function Until(outcomes: map<nat, WriteOutcome>, meanwhile: seq<seq<Event>>, k: nat): seq<Event> {
    Interleaved(outcomes, meanwhile, k) + Others(meanwhile, k)
  }

  /** Visit `k` does not fail. */
  ghost predicate VisitCleans(first: Pool, outcomes: map<nat, WriteOutcome>, meanwhile: seq<seq<Event>>, k: nat) {
    Cleans(ApplyAll(first, Until(outcomes, meanwhile, k)), Visit(k, outcomes), k)
  }

  /** The pool is sound and none of the first `n` visits fails. */
  ghost predicate AllClean(first: Pool, outcomes: map<nat, WriteOutcome>, meanwhile: seq<seq<Event>>, n: nat) {
    if n == 0 then Inv(first)
    else AllClean(first, outcomes, meanwhile, n - 1) && VisitCleans(first, outcomes, meanwhile, n - 1)
  }

  /** Between two visits only calm events happen. */
  ghost predicate AllCalm(first: Pool, meanwhile: seq<seq<Event>>) {
    forall k, i :: 0 <= k < |meanwhile| && 0 <= i < |meanwhile[k]| ==> Calm(first, meanwhile[k][i])
  }

  /** Nobody else flushes. */
  ghost predicate OneFlush(meanwhile: seq<seq<Event>>) {
    forall k, i :: 0 <= k < |meanwhile| && 0 <= i < |meanwhile[k]| ==> !meanwhile[k][i].FlushFrameEvent?
  }

  lemma {:induction false} UntilIsPrefix(outcomes: map<nat, WriteOutcome>, meanwhile: seq<seq<Event>>, k: nat, n: nat)
    requires k < n
    ensures var es, before := Interleaved(outcomes, meanwhile, n), Until(outcomes, meanwhile, k);
            |before| < |es| && es[..|before|] == before && es[|before|] == Visit(k, outcomes)
    decreases n
  {
    if k < n - 1 { UntilIsPrefix(outcomes, meanwhile, k, n - 1); }
  }

  lemma {:induction false} InterleavedIsCalm(first: Pool, outcomes: map<nat, WriteOutcome>,
                                             meanwhile: seq<seq<Event>>, n: nat, i: nat)
    requires AllCalm(first, meanwhile) && i < |Interleaved(outcomes, meanwhile, n)|
    ensures Calm(first, Interleaved(outcomes, meanwhile, n)[i])
  {
    var done, others := Interleaved(outcomes, meanwhile, n - 1), Others(meanwhile, n - 1);
    if i < |done| { InterleavedIsCalm(first, outcomes, meanwhile, n - 1, i); }
    else if i < |done| + |others| { assert Calm(first, others[i - |done|]); }
  }

  /** If nobody else flushes, every frame is flushed at its visit only. */
  lemma {:induction false} FlushedAtVisit(outcomes: map<nat, WriteOutcome>, meanwhile: seq<seq<Event>>, n: nat, i: nat)
    requires OneFlush(meanwhile) && i < |Interleaved(outcomes, meanwhile, n)|
    requires Interleaved(outcomes, meanwhile, n)[i].FlushFrameEvent?
    ensures i == |Until(outcomes, meanwhile, Interleaved(outcomes, meanwhile, n)[i].frame)|
  {
    var done, others := Interleaved(outcomes, meanwhile, n - 1), Others(meanwhile, n - 1);
    if i < |done| { FlushedAtVisit(outcomes, meanwhile, n - 1, i); }
    assert forall j :: 0 <= j < |others| ==> !others[j].FlushFrameEvent?;
  }

  lemma {:induction false} CleanVisit(first: Pool, outcomes: map<nat, WriteOutcome>, meanwhile: seq<seq<Event>>,
                                      n: nat, k: nat)
    requires Inv(first) && AllClean(first, outcomes, meanwhile, n) && k < n
    ensures VisitCleans(first, outcomes, meanwhile, k)
  {
    if k == n - 1 { assert VisitCleans(first, outcomes, meanwhile, n - 1); }
    else { CleanVisit(first, outcomes, meanwhile, n - 1, k); }
  }

  lemma {:induction false} CleanIsSound(first: Pool, outcomes: map<nat, WriteOutcome>, meanwhile: seq<seq<Event>>,
                                        n: nat)
    requires AllClean(first, outcomes, meanwhile, n)
    ensures Inv(first)
  {
    if n > 0 { CleanIsSound(first, outcomes, meanwhile, n - 1); }
  }

  /** The log of a flush that took `first` to `now` and has visited `n` frames. */
  ghost predicate Logs(log: FlushLog, first: Pool, now: Pool, n: nat) {
    Flushes(log) && |log.at| == n && log.ms[0].pool == first && log.ms[|log.es|].pool == now
  }

  /** A flush whose visits do not fail, with calm events in between, has a log. */
  lemma FlushHasLog(first: Pool, outcomes: map<nat, WriteOutcome>, meanwhile: seq<seq<Event>>, n: nat)
    returns (log: FlushLog)
    requires Inv(first) && AllClean(first, outcomes, meanwhile, n) && AllCalm(first, meanwhile)
    ensures log.es == Interleaved(outcomes, meanwhile, n) && Logs(log, first, ApplyAll(first, log.es), n)
    ensures forall k :: 0 <= k < n ==> log.at[k] == |Until(outcomes, meanwhile, k)|
  {
    var es := Interleaved(outcomes, meanwhile, n);
    var ms := EveryRunExists(Now(first), es);
    MomentIs(ms, es, |es|);
    assert es[..|es|] == es;
    log := FlushLog(ms, es, seq(n, k requires 0 <= k < n => |Until(outcomes, meanwhile, k)|));
    RunFlushes(log, outcomes, meanwhile, n);
  }

  lemma RunFlushes(log: FlushLog, outcomes: map<nat, WriteOutcome>, meanwhile: seq<seq<Event>>, n: nat)
    requires Path(log.ms, log.es) && Faithful(log.ms[0], 0) && log.es == Interleaved(outcomes, meanwhile, n)
    requires AllClean(log.ms[0].pool, outcomes, meanwhile, n) && AllCalm(log.ms[0].pool, meanwhile)
    requires |log.at| == n && forall k :: 0 <= k < n ==> log.at[k] == |Until(outcomes, meanwhile, k)|
    ensures Flushes(log)
  {
    forall i | 0 <= i < |log.es| ensures CalmAt(log, i) {
      InterleavedIsCalm(log.ms[0].pool, outcomes, meanwhile, n, i);
    }
    forall k | 0 <= k < n ensures VisitsAt(log, k) { LogVisits(log, outcomes, meanwhile, n, k); }
  }

  /** With no other flush no frame is torn after its visit. */
  lemma OneFlushIsIntact(log: FlushLog, outcomes: map<nat, WriteOutcome>, meanwhile: seq<seq<Event>>, f: nat)
    requires OneFlush(meanwhile) && log.es == Interleaved(outcomes, meanwhile, |log.at|)
    requires forall k :: 0 <= k < |log.at| ==> log.at[k] == |Until(outcomes, meanwhile, k)|
    ensures Intact(log, f)
  {
    if f < |log.at| {
      forall i | log.at[f] < i < |log.es| ensures !Tears(log.es[i], f) {
        if log.es[i].FlushFrameEvent? { FlushedAtVisit(outcomes, meanwhile, |log.at|, i); }
      }
    }
  }

  lemma LogVisits(log: FlushLog, outcomes: map<nat, WriteOutcome>, meanwhile: seq<seq<Event>>, n: nat, k: nat)
    requires Path(log.ms, log.es) && log.es == Interleaved(outcomes, meanwhile, n) && k < n == |log.at|
    requires Inv(log.ms[0].pool) && AllClean(log.ms[0].pool, outcomes, meanwhile, n)
    requires forall j :: 0 <= j < n ==> log.at[j] == |Until(outcomes, meanwhile, j)|
    ensures VisitsAt(log, k)
  {
    UntilIsPrefix(outcomes, meanwhile, k, n);
    CleanVisit(log.ms[0].pool, outcomes, meanwhile, n, k);
    MomentIs(log.ms, log.es, log.at[k]);
  }

  /** After the last visit every page is durable whose frame has not been torn since its visit. */
  ghost predicate Durable(log: FlushLog)
    requires Flushes(log)
  {
    forall p :: p in log.ms[0].pool.store && (p in log.ms[0].pool.table ==> Intact(log, log.ms[0].pool.table[p]))
      ==> HoldsMoment(log, p, |log.es|)
  }

  lemma AllDurable(log: FlushLog)
    requires Flushes(log) && |log.at| == |log.ms[0].pool.frames|
    ensures Durable(log)
  {
    forall p | p in log.ms[0].pool.store && (p in log.ms[0].pool.table ==> Intact(log, log.ms[0].pool.table[p]))
      ensures HoldsMoment(log, p, |log.es|)
    {
      FlushIsDurable(log, p);
    }
  }

  /** A flush that has visited every one of the pool's frames, while others did what `meanwhile` says. */
  ghost predicate Flushed(log: FlushLog, first: Pool, now: Pool, outcomes: map<nat, WriteOutcome>,
                          meanwhile: seq<seq<Event>>) {
    && Logs(log, first, now, |first.frames|) && log.es == Interleaved(outcomes, meanwhile, |first.frames|)
    && Durable(log)
  }

  lemma FlushDone(first: Pool, now: Pool, outcomes: map<nat, WriteOutcome>, meanwhile: seq<seq<Event>>)
    returns (log: FlushLog)
    requires Inv(first) && AllCalm(first, meanwhile) && Visited(first, now, outcomes, meanwhile, |first.frames|)
    ensures Flushed(log, first, now, outcomes, meanwhile)
    ensures OneFlush(meanwhile) ==> forall p :: p in first.store ==> HoldsMoment(log, p, |log.es|)
  {
    log := FlushHasLog(first, outcomes, meanwhile, |first.frames|);
    AllDurable(log);
    if OneFlush(meanwhile) {
      forall p | p in first.store ensures HoldsMoment(log, p, |log.es|) {
        if p in first.table { OneFlushIsIntact(log, outcomes, meanwhile, first.table[p]); }
      }
    }
  }

  // ----- a flush under way -----

  /** The pool is where the first `n` visits and what others did have left it, and none of them has failed. */
  ghost predicate Visited(first: Pool, now: Pool, outcomes: map<nat, WriteOutcome>, meanwhile: seq<seq<Event>>,
                          n: nat) {
    now == ApplyAll(first, Interleaved(outcomes, meanwhile, n)) && AllClean(first, outcomes, meanwhile, n)
  }

  /** The flush ends after `visits` visits: with the last frame, or with the first visit that fails. */
  ghost predicate Stops(first: Pool, outcomes: map<nat, WriteOutcome>, meanwhile: seq<seq<Event>>, visits: nat,
                        ok: bool) {
    if ok then visits == |first.frames| && AllClean(first, outcomes, meanwhile, visits)
    else && 0 < visits <= |first.frames| && AllClean(first, outcomes, meanwhile, visits - 1)
         && !VisitCleans(first, outcomes, meanwhile, visits - 1)
  }

  /** The round of visit `n`: others take the pool from `now` to `between`, the visit takes it to `next`. */
  lemma NextRound(first: Pool, now: Pool, outcomes: map<nat, WriteOutcome>, meanwhile: seq<seq<Event>>, n: nat,
                  between: Pool, next: Pool)
    requires Visited(first, now, outcomes, meanwhile, n)
    requires between == ApplyAll(now, Others(meanwhile, n)) && next == ApplyOne(between, Visit(n, outcomes))
    ensures next == ApplyAll(first, Interleaved(outcomes, meanwhile, n + 1))
    ensures Cleans(between, Visit(n, outcomes), n) <==> VisitCleans(first, outcomes, meanwhile, n)
  {
    ApplyInTwo(first, Interleaved(outcomes, meanwhile, n), Others(meanwhile, n));
    ApplyOneMore(first, Until(outcomes, meanwhile, n), Visit(n, outcomes));
  }
}
