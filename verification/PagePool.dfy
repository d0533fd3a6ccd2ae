/** What a buffer pool behind one lock does to its state. */
module PagePool {
  // Both locked pools are proved to make exactly these steps, and the steps to implement a plain map from pages to
  // bytes for whoever uses the pool.

  import opened Storage
  import opened Clock

  datatype Frame = Frame(page: Option<PageId>, data: Bytes, dirty: bool)

  datatype Pool = Pool(
    store: map<PageId, Bytes>,
    frames: seq<Frame>,
    clock: Clock,
    table: map<PageId, nat>,
    hits: nat,
    misses: nat,
    evictions: nat)

  /** What happens around a fetch: guards dropped during the scan, and how the store answers. */
  datatype Surroundings = Surroundings(drops: Drops, write: WriteOutcome, read: bool)

  datatype Reply = Got(guard: Guard) | Err(error: PoolError)

  // ----- the invariant -----

  ghost predicate TableAgrees(s: Pool) {
    && (forall p :: p in s.table ==> s.table[p] < |s.frames| && s.frames[s.table[p]].page == Some(p))
    && (forall f :: 0 <= f < |s.frames| && s.frames[f].page.Some? ==>
          s.frames[f].page.value in s.table && s.table[s.frames[f].page.value] == f)
  }

  /** Mapped pages exist in the store, and a clean frame holds what the store holds. */
  ghost predicate StoreAgrees(s: Pool) {
    forall f :: 0 <= f < |s.frames| && s.frames[f].page.Some? ==>
      && s.frames[f].page.value in s.store
      && (!s.frames[f].dirty ==> s.store[s.frames[f].page.value] == s.frames[f].data)
  }

  /** A frame is pinned once for every guard of its page, and every guard is on a frame holding its page. */
  ghost predicate PinsAgree(frames: seq<Frame>, c: Clock) {
    && |c.gauges| == |frames|
    && (forall g :: g in c.guards.held ==> g.frame < |frames| && frames[g.frame].page == Some(g.page))
    && forall f :: 0 <= f < |frames| ==> c.gauges[f].pin == GuardsOn(frames[f].page, f, c.guards.held)
  }

  function GuardsOn(page: Option<PageId>, f: nat, guards: multiset<Guard>): nat {
    if page.Some? then guards[Guard(page.value, f)] else 0
  }

  ghost predicate Inv(s: Pool) {
    && Sound(s.clock) && TableAgrees(s) && StoreAgrees(s) && PinsAgree(s.frames, s.clock)
    && s.misses - s.evictions == |s.table|
  }

  /** What a page's reader is entitled to see: the frame's bytes if it has one, else the store's. */
  ghost function Content(s: Pool): map<PageId, Bytes>
    requires TableAgrees(s)
  {
    map p | p in s.store :: if p in s.table then s.frames[s.table[p]].data else s.store[p]
  }

  // ----- fetch -----

  function Touched(usage: nat, mode: AccessMode): nat {
    match mode
    case Normal => if usage + 1 < MAX_USAGE then usage + 1 else MAX_USAGE
    case BulkRead => if usage < 1 then 1 else usage
  }

  function TouchedOften(usage: nat, mode: AccessMode, times: nat): nat {
    if times == 0 then usage else Touched(TouchedOften(usage, mode, times - 1), mode)
  }

  /** Normal accesses are counted up to the maximum; bulk reads, however many, only keep a page from looking unused. */
  lemma {:induction false} AccessesCount(usage: nat, mode: AccessMode, times: nat)
    requires usage <= MAX_USAGE && times > 0
    ensures TouchedOften(usage, mode, times)
         == match mode
            case Normal => if usage + times < MAX_USAGE then usage + times else MAX_USAGE
            case BulkRead => if usage == 0 then 1 else usage
  {
    if times > 1 { AccessesCount(usage, mode, times - 1); }
  }

  function Pin(c: Clock, g: Guard, mode: AccessMode): Clock
    requires g.frame < |c.gauges|
  {
    var gauge := c.gauges[g.frame];
    c.(gauges := c.gauges[g.frame := Gauge(gauge.pin + 1, Touched(gauge.usage, mode))],
       guards := Guards(c.guards.held + multiset{g}))
  }

  function Hit(s: Pool, p: PageId, mode: AccessMode): (Pool, Reply)
    requires p in s.table && s.table[p] < |s.clock.gauges|
  {
    var g := Guard(p, s.table[p]);
    (s.(clock := Pin(s.clock, g, mode), hits := s.hits + 1), Got(g))
  }

  /** The victim of a failed load goes back: it was reserved with one pin. */
  function Release(s: Pool, f: nat): Pool
    requires f < |s.clock.gauges|
  {
    s.(clock := s.clock.(gauges := s.clock.gauges[f := s.clock.gauges[f].(pin := 0)]))
  }

  function StoreAfter(store: map<PageId, Bytes>, p: PageId, data: Bytes, outcome: WriteOutcome): map<PageId, Bytes> {
    match outcome
    case Written => store[p := data]
    case Refused => store
    case Torn(garbage) => store[p := garbage]
  }

  /** Frame `f` is written to the store; it becomes clean if that succeeds. */
  function WriteBack(s: Pool, f: nat, outcome: WriteOutcome): Pool
    requires f < |s.frames| && s.frames[f].page.Some?
  {
    s.(store := StoreAfter(s.store, s.frames[f].page.value, s.frames[f].data, outcome),
       frames := s.frames[f := s.frames[f].(dirty := s.frames[f].dirty && !outcome.Written?)])
  }

  /** Page `p`, read from the store, takes over the reserved frame `f`. */
  function Install(s: Pool, f: nat, p: PageId): (Pool, Reply)
    requires f < |s.frames| == |s.clock.gauges| && p in s.store
  {
    var prior := s.frames[f].page;
    (s.(frames := s.frames[f := Frame(Some(p), s.store[p], false)],
        clock := s.clock.(gauges := s.clock.gauges[f := s.clock.gauges[f].(usage := 1)],
                          guards := Guards(s.clock.guards.held + multiset{Guard(p, f)})),
        table := (if prior.Some? then s.table - {prior.value} else s.table)[p := f],
        misses := s.misses + 1,
        evictions := if prior.Some? then s.evictions + 1 else s.evictions),
     Got(Guard(p, f)))
  }

  /** The reserved frame `f` is written back if dirty, then page `p` is read and installed. */
  function Replace(s: Pool, f: nat, p: PageId, write: WriteOutcome, read: bool): (Pool, Reply)
    requires f < |s.frames| == |s.clock.gauges|
  {
    var writes := s.frames[f].page.Some? && s.frames[f].dirty;
    var cleaned := if writes then WriteBack(s, f, write) else s;
    if (writes && !write.Written?) || !read || p !in cleaned.store then (Release(cleaned, f), Err(Io))
    else Install(cleaned, f, p)
  }

  ghost function Fetch(s: Pool, p: PageId, mode: AccessMode, around: Surroundings): (Pool, Reply)
    requires Inv(s)
  {
    if p in s.table then Hit(s, p, mode)
    else
      var (c, choice) := Run(Start(s.clock, around.drops));
      if choice.Victim? && choice.index < |s.frames| then
        Replace(s.(clock := c), choice.index, p, around.write, around.read)
      else (s.(clock := c), Err(AllFramesPinned))
  }

  // ----- flush and guards -----

  function OutcomeFor(f: nat, outcomes: map<nat, WriteOutcome>): WriteOutcome {
    if f in outcomes then outcomes[f] else Written
  }

  function WriteVia(s: Pool, g: Guard, data: Bytes): Pool
    requires g.frame < |s.frames|
  {
    s.(frames := s.frames[g.frame := s.frames[g.frame].(data := data, dirty := true)])
  }

  // ----- the scan keeps pins and guards in step -----

  lemma DropKeepsPins(frames: seq<Frame>, c: Clock, gs: seq<Guard>)
    requires PinsAgree(frames, c)
    ensures PinsAgree(frames, DropAll(c, gs)) && DropAll(c, gs).guards.held <= c.guards.held
  {
    if gs != [] {
      DropKeepsPins(frames, c, gs[..|gs| - 1]);
      DropOneKeepsPins(frames, DropAll(c, gs[..|gs| - 1]), gs[|gs| - 1]);
    }
  }

  lemma DropOneKeepsPins(frames: seq<Frame>, c: Clock, g: Guard)
    requires PinsAgree(frames, c)
    ensures PinsAgree(frames, DropOne(c, g)) && DropOne(c, g).guards.held == c.guards.held - multiset{g}
  {
  }

  /** `c` with the victim `f` reserved is otherwise in step with its guards. */
  ghost predicate ReservedFor(frames: seq<Frame>, c: Clock, f: nat) {
    && f < |frames| == |c.gauges| && c.gauges[f] == Gauge(1, 0)
    && PinsAgree(frames, c.(gauges := c.gauges[f := Gauge(0, 0)]))
  }

  lemma StepKeepsPins(frames: seq<Frame>, scan: Scan)
    requires Scanning(scan) && PinsAgree(frames, scan.clock)
    ensures var (next, choice) := Step(scan);
            && next.clock.guards.held <= scan.clock.guards.held
            && if choice.Some? && choice.value.Victim? then ReservedFor(frames, next.clock, choice.value.index)
               else PinsAgree(frames, next.clock)
  {
    DropKeepsPins(frames, scan.clock, First(scan.drops));
    var (next, choice) := Step(scan);
    if choice.Some? && choice.value.Victim? {
      assert next.clock.gauges[choice.value.index := Gauge(0, 0)] == Before(scan).gauges;
    }
  }

  lemma {:induction false} ScanKeepsPins(frames: seq<Frame>, scan: Scan)
    requires Scanning(scan) && PinsAgree(frames, scan.clock)
    ensures var (c, choice) := Run(scan);
            && c.guards.held <= scan.clock.guards.held
            && if choice.Victim? then ReservedFor(frames, c, choice.index) else PinsAgree(frames, c)
    decreases SWEEPS - scan.sweep, |scan.clock.gauges| - scan.seen
  {
    StepKeepsPins(frames, scan);
    if Step(scan).1.None? { ScanKeepsPins(frames, Step(scan).0); }
  }
}
