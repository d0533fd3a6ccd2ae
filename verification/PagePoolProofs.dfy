/**
Every step of a pool behind one lock keeps its invariant and refines a plain page map.

Each kind of step has its own lemmas: writing back changes no page, a hit only pins, a reserved
victim is cleaned and then replaced or given back, and flushing a frame is writing it back.
*/
module PagePoolProofs {
  import opened Storage
  import opened Clock
  import opened PagePool

  // ----- writing back changes no page -----

  lemma WriteBackKeeps(s: Pool, f: nat, outcome: WriteOutcome)
    requires TableAgrees(s) && StoreAgrees(s) && f < |s.frames| && s.frames[f].page.Some? && s.frames[f].dirty
    ensures var r := WriteBack(s, f, outcome);
            && TableAgrees(r) && StoreAgrees(r) && Content(r) == Content(s)
            && r == s.(store := r.store, frames := r.frames) && |r.frames| == |s.frames|
            && (forall i :: 0 <= i < |s.frames| ==>
                  r.frames[i].page == s.frames[i].page && r.frames[i].data == s.frames[i].data)
            && (forall i :: 0 <= i < |s.frames| && r.frames[i].dirty ==> s.frames[i].dirty)
            && (outcome.Written? <==> !r.frames[f].dirty)
  {
    var r := WriteBack(s, f, outcome);
    var p := s.frames[f].page.value;
    assert r.store.Keys == s.store.Keys;
    forall q | q in s.store && q !in s.table ensures r.store[q] == s.store[q] { assert q != p; }
    forall i | 0 <= i < |s.frames| && s.frames[i].page == Some(p) ensures i == f { }
  }

  // ----- a hit -----

  lemma HitKeeps(s: Pool, p: PageId, mode: AccessMode)
    requires Inv(s) && p in s.table
    ensures var (r, reply) := Hit(s, p, mode);
            Inv(r) && Content(r) == Content(s) && reply == Got(Guard(p, s.table[p]))
            && r.clock.guards.held == s.clock.guards.held + multiset{reply.guard}
  {
    var (r, reply) := Hit(s, p, mode);
    assert PinsAgree(r.frames, r.clock) by {
      forall f | 0 <= f < |r.frames|
        ensures r.clock.gauges[f].pin == GuardsOn(r.frames[f].page, f, r.clock.guards.held)
      {
        assert s.clock.gauges[f].pin == GuardsOn(s.frames[f].page, f, s.clock.guards.held);
      }
    }
  }

  // ----- a miss -----

  /** A pool in which frame `f` is reserved for loading `p`. */
  ghost predicate Reserved(s: Pool, f: nat, p: PageId) {
    && Sound(s.clock) && TableAgrees(s) && StoreAgrees(s) && ReservedFor(s.frames, s.clock, f)
    && s.misses - s.evictions == |s.table| && p !in s.table
  }

  lemma ReleaseKeeps(s: Pool, f: nat, p: PageId)
    requires Reserved(s, f, p)
    ensures Inv(Release(s, f)) && Content(Release(s, f)) == Content(s)
  {
    assert s.clock.gauges[f].(pin := 0) == Gauge(0, 0);
  }

  lemma MovedEntry(table: map<PageId, nat>, prior: Option<PageId>, p: PageId, f: nat)
    requires p !in table && (prior.Some? ==> prior.value in table)
    ensures var kept := if prior.Some? then table - {prior.value} else table;
            |kept[p := f]| == |table| + if prior.Some? then 0 else 1
  {
    var kept := if prior.Some? then table - {prior.value} else table;
    if prior.Some? { assert table.Keys == kept.Keys + {prior.value}; }
    assert kept[p := f].Keys == kept.Keys + {p};
  }

  lemma InstallTable(s: Pool, f: nat, p: PageId)
    requires Reserved(s, f, p) && p in s.store
    ensures var r := Install(s, f, p).0; TableAgrees(r) && r.misses - r.evictions == |r.table|
  {
    MovedEntry(s.table, s.frames[f].page, p, f);
  }

  /** Loading `p` over a clean frame: nobody's page changes. */
  lemma InstallContent(s: Pool, f: nat, p: PageId)
    requires Reserved(s, f, p) && p in s.store && TableAgrees(Install(s, f, p).0)
    requires s.frames[f].page.Some? ==> !s.frames[f].dirty
    ensures Content(Install(s, f, p).0) == Content(s)
  {
    var r := Install(s, f, p).0;
    forall q | q in s.store ensures Content(r)[q] == Content(s)[q] {
      if q in s.table && s.table[q] == f { assert s.frames[f].page == Some(q); }
      else if q in s.table { assert r.table[q] == s.table[q]; }
    }
  }

  lemma InstallStoreAgrees(s: Pool, f: nat, p: PageId)
    requires Reserved(s, f, p) && p in s.store
    ensures StoreAgrees(Install(s, f, p).0)
  {
  }

  lemma InstallPins(s: Pool, f: nat, p: PageId)
    requires Reserved(s, f, p) && p in s.store
    ensures PinsAgree(Install(s, f, p).0.frames, Install(s, f, p).0.clock)
  {
    var r, c := Install(s, f, p).0, s.clock;
    var freed := c.(gauges := c.gauges[f := Gauge(0, 0)]);
    assert freed.gauges[f].pin == GuardsOn(s.frames[f].page, f, c.guards.held);
    assert forall g :: g in c.guards.held ==> g.frame != f;
    forall i | 0 <= i < |r.frames| ensures r.clock.gauges[i].pin == GuardsOn(r.frames[i].page, i, r.clock.guards.held) {
      assert freed.gauges[i].pin == GuardsOn(s.frames[i].page, i, c.guards.held);
    }
  }

  lemma SamePagesSamePins(frames: seq<Frame>, later: seq<Frame>, c: Clock)
    requires PinsAgree(frames, c) && |later| == |frames|
    requires forall i :: 0 <= i < |frames| ==> later[i].page == frames[i].page
    ensures PinsAgree(later, c)
  {
    forall i | 0 <= i < |later| ensures c.gauges[i].pin == GuardsOn(later[i].page, i, c.guards.held) {
      assert c.gauges[i].pin == GuardsOn(frames[i].page, i, c.guards.held);
    }
  }

  /** The pool after the victim has been written back, if that was needed. */
  ghost predicate Cleaned(s: Pool, f: nat, p: PageId, r: Pool, ok: bool) {
    && Reserved(s, f, p) && Reserved(r, f, p) && Content(r) == Content(s)
    && r == s.(store := r.store, frames := r.frames)
    && (ok && r.frames[f].page.Some? ==> !r.frames[f].dirty)
  }

  lemma WriteBackCleans(s: Pool, f: nat, p: PageId, outcome: WriteOutcome)
    requires Reserved(s, f, p) && s.frames[f].page.Some? && s.frames[f].dirty
    ensures Cleaned(s, f, p, WriteBack(s, f, outcome), outcome.Written?)
  {
    var r := WriteBack(s, f, outcome);
    WriteBackKeeps(s, f, outcome);
    SamePagesSamePins(s.frames, r.frames, s.clock.(gauges := s.clock.gauges[f := Gauge(0, 0)]));
  }

  /** What a fetch of `p` may do to the pool and what it may answer. */
  ghost predicate Answers(s: Pool, p: PageId, r: Pool, reply: Reply)
    requires TableAgrees(s)
  {
    && Inv(r) && Content(r) == Content(s)
    && match reply
       case Got(g) =>
         && g.page == p && g in r.clock.guards.held && r.clock.guards.held <= s.clock.guards.held + multiset{g}
         && r.hits + r.misses == s.hits + s.misses + 1
       case Err(_) =>
         && p !in s.table && r.table == s.table && r.clock.guards.held <= s.clock.guards.held
         && r.hits + r.misses == s.hits + s.misses
  }

  lemma InstallKeeps(s: Pool, f: nat, p: PageId)
    requires Reserved(s, f, p) && p in s.store && (s.frames[f].page.Some? ==> !s.frames[f].dirty)
    ensures Inv(Install(s, f, p).0) && Content(Install(s, f, p).0) == Content(s)
  {
    InstallTable(s, f, p);
    InstallContent(s, f, p);
    InstallStoreAgrees(s, f, p);
    InstallPins(s, f, p);
    InstallSound(s, f, p);
  }

  lemma InstallSound(s: Pool, f: nat, p: PageId)
    requires Reserved(s, f, p) && p in s.store
    ensures Sound(Install(s, f, p).0.clock)
  {
  }

  lemma InstallReplies(s: Pool, f: nat, p: PageId)
    requires Reserved(s, f, p) && p in s.store
    ensures var (r, reply) := Install(s, f, p);
            && reply == Got(Guard(p, f)) && r.clock.guards.held == s.clock.guards.held + multiset{reply.guard}
            && r.hits + r.misses == s.hits + s.misses + 1
  {
  }

  lemma InstallAnswers(s: Pool, f: nat, p: PageId)
    requires Reserved(s, f, p) && p in s.store && (s.frames[f].page.Some? ==> !s.frames[f].dirty)
    ensures Answers(s, p, Install(s, f, p).0, Install(s, f, p).1)
  {
    InstallKeeps(s, f, p);
    InstallReplies(s, f, p);
  }

  lemma ReplaceAnswers(s: Pool, f: nat, p: PageId, write: WriteOutcome, read: bool)
    requires Reserved(s, f, p)
    ensures var (r, reply) := Replace(s, f, p, write, read); Answers(s, p, r, reply)
  {
    var writes := s.frames[f].page.Some? && s.frames[f].dirty;
    if writes { WriteBackCleans(s, f, p, write); }
    var cleaned := if writes then WriteBack(s, f, write) else s;
    assert Cleaned(s, f, p, cleaned, !writes || write.Written?);
    if (writes && !write.Written?) || !read || p !in cleaned.store { ReleaseKeeps(cleaned, f, p); }
    else { InstallAnswers(cleaned, f, p); }
  }

  /** The content of its page is what a guard reads. */
  lemma GuardSees(s: Pool, g: Guard)
    requires Inv(s) && g in s.clock.guards.held
    ensures g.frame < |s.frames| && g.page in Content(s) && s.frames[g.frame].data == Content(s)[g.page]
  {
  }

  /**
  A fetch, whether it hits, evicts or fails, keeps the invariant and changes no page. If it
  succeeds its guard sees the page's content; if it fails every mapping is as before.
  */
  lemma FetchRefines(s: Pool, p: PageId, mode: AccessMode, around: Surroundings)
    requires Inv(s)
    ensures var (r, reply) := Fetch(s, p, mode, around);
            && Answers(s, p, r, reply)
            && (reply.Got? ==> reply.guard.frame < |r.frames| && p in Content(s)
                               && r.frames[reply.guard.frame].data == Content(s)[p])
  {
    var (r, reply) := Fetch(s, p, mode, around);
    if p in s.table { HitKeeps(s, p, mode); } else { MissAnswers(s, p, mode, around); }
    if reply.Got? { GuardSees(r, reply.guard); }
  }

  /** A scan changes the clock alone; what a fetch answers afterwards it answers for the pool before. */
  lemma AnswersBeforeScan(s: Pool, c: Clock, p: PageId, r: Pool, reply: Reply)
    requires TableAgrees(s) && c.guards.held <= s.clock.guards.held
    requires Answers(s.(clock := c), p, r, reply)
    ensures Answers(s, p, r, reply)
  {
    assert Content(s.(clock := c)) == Content(s);
  }

  lemma ScanReserves(s: Pool, p: PageId, drops: Drops) returns (c: Clock, choice: Choice)
    requires Inv(s) && p !in s.table
    ensures (c, choice) == Run(Start(s.clock, drops)) && c.guards.held <= s.clock.guards.held
    ensures if choice.Victim? then Reserved(s.(clock := c), choice.index, p) else Inv(s.(clock := c))
  {
    var start := Start(s.clock, drops);
    ScanKeepsPins(s.frames, start);
    c, choice := Run(start).0, Run(start).1;
    assert TableAgrees(s.(clock := c)) && StoreAgrees(s.(clock := c));
  }

  lemma MissAnswers(s: Pool, p: PageId, mode: AccessMode, around: Surroundings)
    requires Inv(s) && p !in s.table
    ensures Answers(s, p, Fetch(s, p, mode, around).0, Fetch(s, p, mode, around).1)
  {
    var c, choice := ScanReserves(s, p, around.drops);
    var t := s.(clock := c);
    if choice.Victim? {
      var f := choice.index;
      assert Fetch(s, p, mode, around) == Replace(t, f, p, around.write, around.read);
      ReplaceAnswers(t, f, p, around.write, around.read);
      AnswersBeforeScan(s, c, p, Fetch(s, p, mode, around).0, Fetch(s, p, mode, around).1);
    } else {
      assert Answers(t, p, t, Err(AllFramesPinned));
      AnswersBeforeScan(s, c, p, t, Err(AllFramesPinned));
    }
  }

  // ----- flushing one frame -----

  /** One frame's part of a flush: it is written back if it is dirty. */
  function FlushFrame(s: Pool, f: nat, outcome: WriteOutcome): Pool {
    if f < |s.frames| && s.frames[f].page.Some? && s.frames[f].dirty then WriteBack(s, f, outcome) else s
  }

  lemma FlushFrameRefines(s: Pool, f: nat, outcome: WriteOutcome)
    requires Inv(s)
    ensures Inv(FlushFrame(s, f, outcome)) && Content(FlushFrame(s, f, outcome)) == Content(s)
  {
    if f < |s.frames| && s.frames[f].page.Some? && s.frames[f].dirty {
      WriteBackKeeps(s, f, outcome);
      SamePagesSamePins(s.frames, WriteBack(s, f, outcome).frames, s.clock);
    }
  }

  // ----- guards -----

  lemma WriteViaRefines(s: Pool, g: Guard, data: Bytes)
    requires Inv(s) && g in s.clock.guards.held
    ensures Inv(WriteVia(s, g, data)) && Content(WriteVia(s, g, data)) == Content(s)[g.page := data]
  {
    var r := WriteVia(s, g, data);
    SamePagesSamePins(s.frames, r.frames, s.clock);
  }

  lemma DropRefines(s: Pool, g: Guard)
    requires Inv(s)
    ensures var r := s.(clock := DropOne(s.clock, g));
            Inv(r) && Content(r) == Content(s) && r.clock.guards.held == s.clock.guards.held - multiset{g}
  {
    DropOneKeepsPins(s.frames, s.clock, g);
  }

  /** An empty pool of `n` frames over `store`. */
  function EmptyPool(n: nat, store: map<PageId, Bytes>, page: Bytes): Pool {
    var clock := Clock(seq(n, i => Gauge(0, 0)), 0, 0, Guards(multiset{}));
    Pool(store, seq(n, i => Frame(None, page, false)), clock, map[], 0, 0, 0)
  }

  lemma EmptyPoolIsTheStore(n: nat, store: map<PageId, Bytes>, page: Bytes)
    requires n > 0
    ensures Inv(EmptyPool(n, store, page)) && Content(EmptyPool(n, store, page)) == store
  {
  }

  // ----- how many frames are in use -----

  ghost function Occupied(frames: seq<Frame>): set<nat> {
    set f | 0 <= f < |frames| && frames[f].page.Some?
  }

  ghost function Below(n: nat): (r: set<nat>)
    ensures |r| == n && forall i :: i in r <==> 0 <= i < n
  {
    if n == 0 then {} else Below(n - 1) + {n - 1}
  }

  /** Misses minus evictions are the mapped pages, and those are the occupied frames. */
  lemma StatisticsAgree(s: Pool)
    requires Inv(s)
    ensures s.misses - s.evictions == |s.table| == |Occupied(s.frames)| <= |s.frames|
  {
    SameSize(s.table, Occupied(s.frames));
    var all := Below(|s.frames|);
    assert Occupied(s.frames) <= all;
    SubsetIsSmaller(Occupied(s.frames), all);
  }

  lemma SubsetIsSmaller(a: set<nat>, b: set<nat>)
    requires a <= b
    ensures |a| <= |b|
  {
    assert b == a + (b - a);
  }

  lemma {:induction false} SameSize(table: map<PageId, nat>, frames: set<nat>)
    requires forall p :: p in table ==> table[p] in frames
    requires forall f :: f in frames ==> exists p :: p in table && table[p] == f
    requires forall p, q :: p in table && q in table && table[p] == table[q] ==> p == q
    ensures |table| == |frames|
    decreases |frames|
  {
    if frames == {} { assert table == map[]; }
    else {
      var f :| f in frames;
      var p :| p in table && table[p] == f;
      var rest := table - {p};
      forall g | g in frames - {f} ensures exists q :: q in rest && rest[q] == g {
        var q :| q in table && table[q] == g;
        assert q in rest && rest[q] == g;
      }
      SameSize(rest, frames - {f});
      assert table.Keys == rest.Keys + {p};
    }
  }
}
