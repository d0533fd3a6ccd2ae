/** Exactly when a fetch from a pool behind one lock fails, and exactly what it does. */
module PagePoolFetch {
  import opened Storage
  import opened Clock
  import opened PagePool
  import opened PagePoolProofs

  /** Every frame is pinned when the scan's first sweep looks at it. */
  ghost predicate AllSeenPinned(s: Pool, drops: Drops)
    requires Sound(s.clock)
  {
    forall k :: 0 <= k < |s.clock.gauges| ==> SeenPinned(s.clock, drops, k)
  }

  /** The frame that the scan reserves. */
  ghost predicate Chooses(s: Pool, drops: Drops, f: nat)
    requires Sound(s.clock)
  {
    Run(Start(s.clock, drops)).1 == Victim(f)
  }

  predicate NeedsWriting(frame: Frame) {
    frame.page.Some? && frame.dirty
  }

  lemma ScanChooses(s: Pool, p: PageId, drops: Drops)
    requires Inv(s) && p !in s.table
    ensures AllSeenPinned(s, drops) <==> Run(Start(s.clock, drops)).1 == AllPinned
    ensures !AllSeenPinned(s, drops) ==>
              exists f :: 0 <= f < |s.frames| && Chooses(s, drops, f)
                          && Reserved(s.(clock := Run(Start(s.clock, drops)).0), f, p)
  {
    ScanDecides(s.clock, drops);
    var c, choice := ScanReserves(s, p, drops);
    if choice.Victim? { assert Chooses(s, drops, choice.index); }
  }

  lemma WriteBackKeepsKeys(s: Pool, f: nat, outcome: WriteOutcome)
    requires StoreAgrees(s) && f < |s.frames| && s.frames[f].page.Some?
    ensures WriteBack(s, f, outcome).store.Keys == s.store.Keys
  {
  }

  /**
  When a fetch fails. It reports that all frames are pinned if and only if the page is not mapped
  and the scan saw every frame pinned. It reports an I/O error if and only if the page is not
  mapped, there is a victim, and the page cannot be read or the victim is dirty and cannot be
  written. Otherwise it succeeds.
  */
  lemma FetchFailsExactly(s: Pool, p: PageId, mode: AccessMode, around: Surroundings)
    requires Inv(s)
    ensures var reply := Fetch(s, p, mode, around).1;
            && (reply == Err(AllFramesPinned) <==> p !in s.table && AllSeenPinned(s, around.drops))
            && (reply == Err(Io) <==>
                  && p !in s.table && !AllSeenPinned(s, around.drops)
                  && (!around.read || p !in s.store
                      || exists f :: 0 <= f < |s.frames| && Chooses(s, around.drops, f)
                                     && NeedsWriting(s.frames[f]) && !around.write.Written?))
  {
    if p !in s.table {
      ScanChooses(s, p, around.drops);
      if f :| 0 <= f < |s.frames| && Chooses(s, around.drops, f) {
        var t := s.(clock := Run(Start(s.clock, around.drops)).0);
        if NeedsWriting(s.frames[f]) { WriteBackKeepsKeys(t, f, around.write); }
      }
    }
  }

  // ----- a hit -----

  /** One use more: a normal access counts up to 5, a bulk read only lifts 0 to 1. */
  function Used(usage: nat, mode: AccessMode): nat {
    match mode
    case Normal => if usage >= 5 then 5 else usage + 1
    case BulkRead => if usage == 0 then 1 else usage
  }

  /** A hit pins the page's frame once more, counts one access and one hit, and changes nothing else. */
  lemma HitEffects(s: Pool, p: PageId, mode: AccessMode, around: Surroundings)
    requires Inv(s) && p in s.table
    ensures var (r, reply) := Fetch(s, p, mode, around);
            var f, g := s.table[p], Guard(p, s.table[p]);
            && f < |s.frames| == |s.clock.gauges| && reply == Got(g)
            && r == s.(clock := r.clock, hits := s.hits + 1)
            && r.clock == s.clock.(gauges := r.clock.gauges, guards := Guards(s.clock.guards.held + multiset{g}))
            && r.clock.gauges
               == s.clock.gauges[f := Gauge(s.clock.gauges[f].pin + 1, Used(s.clock.gauges[f].usage, mode))]
  {
  }

  // ----- a miss -----

  /** The store after the victim was written back, if that was needed. */
  function StoreWith(s: Pool, f: nat, outcome: WriteOutcome): map<PageId, Bytes>
    requires f < |s.frames|
  {
    var frame := s.frames[f];
    if !NeedsWriting(frame) then s.store
    else match outcome
      case Written => s.store[frame.page.value := frame.data]
      case Refused => s.store
      case Torn(garbage) => s.store[frame.page.value := garbage]
  }

  /** Page `p` has taken over frame `f`: pinned once, used once, clean, and the page that was there is unmapped. */
  ghost predicate TakesOver(s: Pool, p: PageId, c: Clock, f: nat, write: WriteOutcome, r: Pool)
    requires TableAgrees(s) && f < |s.frames| == |c.gauges| && p in s.store
  {
    var prior := s.frames[f].page;
    && r.frames == s.frames[f := Frame(Some(p), Content(s)[p], false)]
    && r.table == (map q | q in s.table && Some(q) != prior :: s.table[q])[p := f]
    && r.store == StoreWith(s, f, write)
    && r.hits == s.hits && r.misses == s.misses + 1
    && r.evictions == s.evictions + (if prior.Some? then 1 else 0)
    && r.clock == c.(gauges := c.gauges[f := Gauge(1, 1)], guards := Guards(c.guards.held + multiset{Guard(p, f)}))
  }

  /** The victim is free again and holds the page that it held. */
  ghost predicate GivesBack(s: Pool, c: Clock, f: nat, write: WriteOutcome, r: Pool)
    requires f < |s.frames| == |c.gauges|
  {
    var cleaned := NeedsWriting(s.frames[f]) && write.Written?;
    && r.frames == s.frames[f := s.frames[f].(dirty := s.frames[f].dirty && !cleaned)]
    && r == s.(frames := r.frames, store := StoreWith(s, f, write), clock := c.(gauges := c.gauges[f := Gauge(0, 0)]))
  }

  lemma SameTable(table: map<PageId, nat>, prior: Option<PageId>)
    ensures (map q | q in table && Some(q) != prior :: table[q]) == if prior.Some? then table - {prior.value} else table
  {
  }

  lemma GivesBackEffects(s: Pool, c: Clock, f: nat, p: PageId, write: WriteOutcome)
    requires Inv(s) && Reserved(s.(clock := c), f, p)
    ensures var t := s.(clock := c);
            var cleaned := if NeedsWriting(s.frames[f]) then WriteBack(t, f, write) else t;
            GivesBack(s, c, f, write, Release(cleaned, f)) && cleaned.store == StoreWith(s, f, write)
  {
  }

  lemma TakesOverEffects(s: Pool, c: Clock, f: nat, p: PageId, write: WriteOutcome)
    requires Inv(s) && Reserved(s.(clock := c), f, p) && p in StoreWith(s, f, write)
    requires NeedsWriting(s.frames[f]) ==> write.Written?
    ensures var t := s.(clock := c);
            var cleaned := if NeedsWriting(s.frames[f]) then WriteBack(t, f, write) else t;
            && p in s.store && p in cleaned.store
            && Install(cleaned, f, p).1 == Got(Guard(p, f)) && TakesOver(s, p, c, f, write, Install(cleaned, f, p).0)
  {
    SameTable(s.table, s.frames[f].page);
  }

  lemma ReplaceEffects(s: Pool, c: Clock, f: nat, p: PageId, write: WriteOutcome, read: bool)
    requires Inv(s) && Reserved(s.(clock := c), f, p)
    ensures var (r, reply) := Replace(s.(clock := c), f, p, write, read);
            match reply
            case Got(g) => g == Guard(p, f) && p in s.store && TakesOver(s, p, c, f, write, r)
            case Err(_) => GivesBack(s, c, f, write, r)
  {
    GivesBackEffects(s, c, f, p, write);
    if p in StoreWith(s, f, write) && (NeedsWriting(s.frames[f]) ==> write.Written?) {
      TakesOverEffects(s, c, f, p, write);
    }
  }

  /**
  What a fetch of a page that is not mapped does, from the scan's clock `c` on. If it succeeds the
  page takes over the chosen frame; on an I/O error the frame is given back; if all frames are
  pinned only the clock has moved.
  */
  lemma MissEffects(s: Pool, p: PageId, mode: AccessMode, around: Surroundings)
    requires Inv(s) && p !in s.table
    ensures var (r, reply) := Fetch(s, p, mode, around);
            var c := Run(Start(s.clock, around.drops)).0;
            match reply
            case Err(AllFramesPinned) => r == s.(clock := c)
            case Err(Io) => exists f :: 0 <= f < |s.frames| == |c.gauges| && Chooses(s, around.drops, f)
                                        && GivesBack(s, c, f, around.write, r)
            case Got(g) => && g.page == p && g.frame < |s.frames| == |c.gauges| && p in s.store
                           && Chooses(s, around.drops, g.frame) && TakesOver(s, p, c, g.frame, around.write, r)
  {
    ScanChooses(s, p, around.drops);
    if f :| 0 <= f < |s.frames| && Chooses(s, around.drops, f)
            && Reserved(s.(clock := Run(Start(s.clock, around.drops)).0), f, p) {
      ReplaceEffects(s, Run(Start(s.clock, around.drops)).0, f, p, around.write, around.read);
    }
  }

  /** With no guard dropped meanwhile the page takes over the least used unpinned frame nearest to the hand. */
  lemma EvictsBest(s: Pool, p: PageId, mode: AccessMode, around: Surroundings)
    requires Inv(s) && p !in s.table && around.drops == []
    ensures match Fetch(s, p, mode, around).1
            case Got(g) => Best(s.clock, g.frame)
            case Err(AllFramesPinned) => forall j :: 0 <= j < |s.clock.gauges| ==> s.clock.gauges[j].pin != 0
            case Err(Io) => exists j :: 0 <= j < |s.clock.gauges| && s.clock.gauges[j].pin == 0
  {
    ClosedForm(s.clock);
    MissEffects(s, p, mode, around);
  }
}

