/** The CLOCK scan with usage counts that both locked pools use to choose a victim. */
module Clock {
  // The scan runs under the pool's lock, so no page can be pinned meanwhile. Guards, however, are dropped without
  // the lock: `drops[k]` are those dropped just before the scan looks at its `k`-th frame, and every statement
  // below is about any such environment.

  import opened Storage

  const MAX_USAGE: nat := 5

  /** The scan makes this many sweeps before it declares the end unreachable. */
  const SWEEPS: nat := MAX_USAGE + 1

  datatype Gauge = Gauge(pin: nat, usage: nat)

  datatype Guard = Guard(page: PageId, frame: nat)

  datatype Clock = Clock(gauges: seq<Gauge>, hand: nat, chances: nat, guards: Guards)

  /** The page guards that callers hold; the wrapper keeps the equality of two clocks from comparing multisets. */
  datatype Guards = Guards(held: multiset<Guard>)

  datatype Choice = Victim(index: nat) | AllPinned | Exhausted

  type Drops = seq<seq<Guard>>

  ghost predicate Sound(c: Clock) {
    && c.hand < |c.gauges|
    && forall j :: 0 <= j < |c.gauges| ==> c.gauges[j].usage <= MAX_USAGE
  }

  // ----- the steps of a scan -----

  /** Dropping a guard; one that does not exist cannot be dropped. */
  function DropOne(c: Clock, g: Guard): (r: Clock)
    ensures |r.gauges| == |c.gauges| && r.hand == c.hand && r.chances == c.chances
    ensures forall j :: 0 <= j < |c.gauges| ==> r.gauges[j].usage == c.gauges[j].usage
    ensures forall j :: 0 <= j < |c.gauges| ==> r.gauges[j].pin <= c.gauges[j].pin
  {
    if g in c.guards.held && g.frame < |c.gauges| && c.gauges[g.frame].pin > 0 then
      c.(gauges := c.gauges[g.frame := c.gauges[g.frame].(pin := c.gauges[g.frame].pin - 1)],
         guards := Guards(c.guards.held - multiset{g}))
    else c
  }

  function DropAll(c: Clock, gs: seq<Guard>): (r: Clock)
    ensures |r.gauges| == |c.gauges| && r.hand == c.hand && r.chances == c.chances
    ensures forall j :: 0 <= j < |c.gauges| ==> r.gauges[j].usage == c.gauges[j].usage
    ensures forall j :: 0 <= j < |c.gauges| ==> r.gauges[j].pin <= c.gauges[j].pin
  {
    if gs == [] then c else DropOne(DropAll(c, gs[..|gs| - 1]), gs[|gs| - 1])
  }

  function First(drops: Drops): seq<Guard> {
    if drops == [] then [] else drops[0]
  }

  function Rest(drops: Drops): Drops {
    if drops == [] then [] else drops[1..]
  }

  function Next(j: nat, n: nat): nat
    requires j < n
  {
    if j + 1 < n then j + 1 else 0
  }

  lemma NextIsModulo(j: nat, n: nat)
    requires j < n
    ensures Next(j, n) == (j + 1) % n
  {
  }

  datatype Look = Pinned | Lowered | Taken

  /** The scan looks at the frame under the hand and moves on. */
  function LookAt(c: Clock): (r: (Clock, Look))
    requires Sound(c)
    ensures |r.0.gauges| == |c.gauges| && Sound(r.0) && r.0.hand == Next(c.hand, |c.gauges|)
    ensures r.1.Pinned? <==> c.gauges[c.hand].pin != 0
    ensures r.1.Taken? <==> c.gauges[c.hand] == Gauge(0, 0)
  {
    var moved := c.(hand := Next(c.hand, |c.gauges|));
    var gauge := c.gauges[c.hand];
    if gauge.pin != 0 then (moved, Pinned)
    else if gauge.usage == 0 then (moved.(gauges := c.gauges[c.hand := gauge.(pin := 1)]), Taken)
    else (moved.(gauges := c.gauges[c.hand := gauge.(usage := gauge.usage - 1)], chances := c.chances + 1), Lowered)
  }

  /** Where a scan stands: `found` tells whether this sweep met an unpinned frame. */
  datatype Scan = Scan(clock: Clock, drops: Drops, sweep: nat, seen: nat, found: bool)

  ghost predicate Scanning(s: Scan) {
    Sound(s.clock) && s.sweep <= SWEEPS && s.seen <= |s.clock.gauges|
  }

  function Start(c: Clock, drops: Drops): Scan {
    Scan(c, drops, 0, 0, false)
  }

  /** The clock when the scan looks at its next frame. */
  function Before(s: Scan): (c: Clock)
    ensures |c.gauges| == |s.clock.gauges| && c.hand == s.clock.hand
    ensures forall j :: 0 <= j < |c.gauges| ==> c.gauges[j].usage == s.clock.gauges[j].usage
    ensures forall j :: 0 <= j < |c.gauges| ==> c.gauges[j].pin <= s.clock.gauges[j].pin
  {
    DropAll(s.clock, First(s.drops))
  }

  /** One look at a frame, or the end of a sweep; an option tells the decision taken. */
  ghost function Step(s: Scan): (r: (Scan, Option<Choice>))
    requires Scanning(s)
    ensures Scanning(r.0) && |r.0.clock.gauges| == |s.clock.gauges|
    ensures r.1.None? ==> s.sweep < r.0.sweep || (s.sweep == r.0.sweep && s.seen < r.0.seen)
  {
    if s.sweep == SWEEPS then (s, Some(Exhausted))
    else if s.seen == |s.clock.gauges| then
      if s.found then (s.(sweep := s.sweep + 1, seen := 0, found := false), None) else (s, Some(AllPinned))
    else
      var (c, look) := LookAt(Before(s));
      (Scan(c, Rest(s.drops), s.sweep, s.seen + 1, s.found || look.Lowered?),
       if look.Taken? then Some(Victim(s.clock.hand)) else None)
  }

  /** The clock and the choice that the scan ends with. */
  ghost function Run(s: Scan): (r: (Clock, Choice))
    requires Scanning(s)
    ensures |r.0.gauges| == |s.clock.gauges| && Sound(r.0)
    decreases SWEEPS - s.sweep, |s.clock.gauges| - s.seen
  {
    var (s', choice) := Step(s);
    if choice.Some? then (s'.clock, choice.value) else Run(s')
  }

  /** One look: the scan ends with its victim, or goes on with the next frame. */
  lemma {:induction false} LookGoesOn(c: Clock, drops: Drops, sweep: nat, seen: nat, found: bool,
                                      result: (Clock, Choice))
    requires Sound(c) && sweep < SWEEPS && seen < |c.gauges|
    requires Run(Scan(c, drops, sweep, seen, found)) == result
    ensures var (d, look) := LookAt(DropAll(c, First(drops)));
            if look.Taken? then (d, Victim(c.hand)) == result
            else Run(Scan(d, Rest(drops), sweep, seen + 1, found || look.Lowered?)) == result
  {
    var s := Scan(c, drops, sweep, seen, found);
    var (d, look) := LookAt(DropAll(c, First(drops)));
    var (next, choice) := Step(s);
    assert next == Scan(d, Rest(drops), sweep, seen + 1, found || look.Lowered?);
    assert choice == if look.Taken? then Some(Victim(c.hand)) else None;
  }

  /** After a full sweep: another one if it found an unpinned frame, else the scan gives up. */
  lemma {:induction false} SweepEnds(c: Clock, drops: Drops, sweep: nat, found: bool, result: (Clock, Choice))
    requires Sound(c) && sweep < SWEEPS && Run(Scan(c, drops, sweep, |c.gauges|, found)) == result
    ensures found ==> Run(Scan(c, drops, sweep + 1, 0, false)) == result
    ensures !found ==> (c, AllPinned) == result
  {
  }

  lemma {:induction false} NoSeventhSweep(c: Clock, drops: Drops, result: (Clock, Choice))
    requires Sound(c) && Run(Scan(c, drops, SWEEPS, 0, false)) == result
    ensures result == (c, Exhausted)
  {
  }

  // ----- frames in the order the hand meets them -----

  /** How many frames the hand, starting at `h`, meets before frame `j`. */
  function Off(h: nat, j: nat, n: nat): nat
    requires h < n && j < n
  {
    if j >= h then j - h else j + n - h
  }

  /** The frame under the hand after `k` steps from `h`. */
  function After(h: nat, k: nat, n: nat): nat
    requires h < n && k <= n
  {
    if h + k < n then h + k else h + k - n
  }

  lemma AfterOff(h: nat, k: nat, n: nat)
    requires h < n && k < n
    ensures After(h, k, n) < n && Off(h, After(h, k, n), n) == k
    ensures Next(After(h, k, n), n) == After(h, k + 1, n)
  {
  }

  lemma OffAfter(h: nat, j: nat, n: nat)
    requires h < n && j < n
    ensures Off(h, j, n) < n && After(h, Off(h, j, n), n) == j
  {
  }

  // ----- the scan always ends with a decision -----

  /** The hand has moved `seen` frames on from `h`. */
  ghost predicate StartedAt(s: Scan, h: nat) {
    && Scanning(s) && s.sweep < SWEEPS && h < |s.clock.gauges|
    && s.clock.hand == After(h, s.seen, |s.clock.gauges|)
  }

  /** Frame `j` is unpinned, will not outlast the remaining sweeps, and this sweep has not passed it unnoticed. */
  ghost predicate Due(s: Scan, h: nat, j: nat)
    requires StartedAt(s, h)
  {
    var passed := j < |s.clock.gauges| && Off(h, j, |s.clock.gauges|) < s.seen;
    && j < |s.clock.gauges| && s.clock.gauges[j].pin == 0
    && s.clock.gauges[j].usage + s.sweep + (if passed then 1 else 0) <= MAX_USAGE
    && (passed ==> s.found) && (s.sweep == 0 ==> passed)
  }

  lemma DueStep(s: Scan, h: nat, j: nat)
    requires StartedAt(s, h) && Due(s, h, j)
    ensures match Step(s).1
            case None => StartedAt(Step(s).0, h) && Due(Step(s).0, h, j)
            case Some(choice) => choice.Victim?
  {
    OffAfter(h, j, |s.clock.gauges|);
    if s.seen < |s.clock.gauges| { AfterOff(h, s.seen, |s.clock.gauges|); }
  }

  lemma {:induction false} DueChooses(s: Scan, h: nat, j: nat)
    requires StartedAt(s, h) && Due(s, h, j)
    ensures Run(s).1.Victim?
    decreases SWEEPS - s.sweep, |s.clock.gauges| - s.seen
  {
    DueStep(s, h, j);
    if Step(s).1.None? { DueChooses(Step(s).0, h, j); }
  }

  /** The clock after the guards of the first `k` looks have been dropped and nothing else happened. */
  function Dropped(c: Clock, drops: Drops, k: nat): (r: Clock)
    ensures |r.gauges| == |c.gauges|
  {
    if k == 0 then c else DropAll(Dropped(c, drops, k - 1), if k <= |drops| then drops[k - 1] else [])
  }

  /** The `k`-th frame the hand meets is pinned when the scan looks at it. */
  predicate SeenPinned(c: Clock, drops: Drops, k: nat)
    requires c.hand < |c.gauges| && k < |c.gauges|
  {
    Dropped(c, drops, k + 1).gauges[After(c.hand, k, |c.gauges|)].pin != 0
  }

  /** The first sweep as long as it has met pinned frames only. */
  ghost predicate Fruitless(s: Scan, c: Clock, drops: Drops) {
    && StartedAt(s, c.hand) && s.sweep == 0 && !s.found && |s.clock.gauges| == |c.gauges|
    && s.clock == Dropped(c, drops, s.seen).(hand := s.clock.hand)
    && s.drops == if s.seen <= |drops| then drops[s.seen..] else []
  }

  lemma DropsIgnoreHand(c: Clock, hand: nat, gs: seq<Guard>)
    ensures DropAll(c.(hand := hand), gs) == DropAll(c, gs).(hand := hand)
  {
    if gs != [] { DropsIgnoreHand(c, hand, gs[..|gs| - 1]); }
  }

  lemma FruitlessBefore(s: Scan, c: Clock, drops: Drops)
    requires Fruitless(s, c, drops) && s.seen < |c.gauges|
    ensures Before(s) == Dropped(c, drops, s.seen + 1).(hand := s.clock.hand)
    ensures Before(s).gauges[s.clock.hand].pin != 0 <==> SeenPinned(c, drops, s.seen)
  {
    DropsIgnoreHand(Dropped(c, drops, s.seen), s.clock.hand, First(s.drops));
    AfterOff(c.hand, s.seen, |c.gauges|);
  }

  lemma FruitlessStep(s: Scan, c: Clock, drops: Drops)
    requires Fruitless(s, c, drops) && s.seen < |c.gauges|
    ensures if SeenPinned(c, drops, s.seen) then Step(s).1.None? && Fruitless(Step(s).0, c, drops)
            else if Step(s).1.Some? then Step(s).1.value.Victim?
            else StartedAt(Step(s).0, c.hand) && Due(Step(s).0, c.hand, s.clock.hand)
  {
    FruitlessBefore(s, c, drops);
    AfterOff(c.hand, s.seen, |c.gauges|);
  }

  lemma {:induction false} FirstSweep(s: Scan, c: Clock, drops: Drops)
    requires Fruitless(s, c, drops)
    ensures if forall k :: s.seen <= k < |c.gauges| ==> SeenPinned(c, drops, k)
            then Run(s) == (Dropped(c, drops, |c.gauges|), AllPinned)
            else Run(s).1.Victim?
    decreases |c.gauges| - s.seen
  {
    if s.seen < |c.gauges| {
      var s' := Step(s).0;
      FruitlessStep(s, c, drops);
      if SeenPinned(c, drops, s.seen) { FirstSweep(s', c, drops); }
      else if Step(s).1.None? { DueChooses(s', c.hand, s.clock.hand); }
    } else {
      DroppedHand(c, drops, |c.gauges|);
    }
  }

  lemma DroppedHand(c: Clock, drops: Drops, k: nat)
    ensures Dropped(c, drops, k).hand == c.hand
  {
  }

  /**
  The scan always decides, in at most six sweeps and whatever guards are dropped meanwhile; it
  reports that all frames are pinned if and only if its first sweep saw every frame pinned,
  and then it has changed nothing.
  */
  lemma ScanDecides(c: Clock, drops: Drops)
    requires Sound(c)
    ensures if forall k :: 0 <= k < |c.gauges| ==> SeenPinned(c, drops, k)
            then Run(Start(c, drops)) == (Dropped(c, drops, |c.gauges|), AllPinned)
            else Run(Start(c, drops)).1.Victim?
  {
    FirstSweep(Start(c, drops), c, drops);
  }

  lemma NeverExhausted(c: Clock, drops: Drops) returns (result: (Clock, Choice))
    requires Sound(c)
    ensures result == Run(Start(c, drops)) && !result.1.Exhausted?
  {
    ScanDecides(c, drops);
    result := Run(Start(c, drops));
  }

  // ----- the closed form when no guard is dropped -----

  /** `f` is unpinned with the least usage, and of those the one the hand meets first. */
  ghost predicate Best(c: Clock, f: nat)
    requires Sound(c)
  {
    && f < |c.gauges| && c.gauges[f].pin == 0
    && forall j :: 0 <= j < |c.gauges| && c.gauges[j].pin == 0 ==>
         || c.gauges[f].usage < c.gauges[j].usage
         || (c.gauges[f].usage == c.gauges[j].usage && Off(c.hand, f, |c.gauges|) <= Off(c.hand, j, |c.gauges|))
  }

  /** Uses left to frame `j` after `sweeps` full sweeps and `seen` more looks. */
  function Left(c: Clock, sweeps: nat, seen: nat, j: nat): int
    requires c.hand < |c.gauges| && j < |c.gauges|
  {
    c.gauges[j].usage - sweeps - if Off(c.hand, j, |c.gauges|) < seen then 1 else 0
  }

  /** The gauges after `sweeps` full sweeps and `seen` more looks: pinned frames are left alone. */
  ghost predicate LoweredTo(c: Clock, gauges: seq<Gauge>, sweeps: nat, seen: nat)
    requires Sound(c)
  {
    && |gauges| == |c.gauges|
    && forall j :: 0 <= j < |gauges| ==>
         if c.gauges[j].pin != 0 then gauges[j] == c.gauges[j]
         else gauges[j].pin == 0 && gauges[j].usage == Left(c, sweeps, seen, j)
  }

  /** A scan of `c` under way with no guard dropped. */
  ghost predicate Undisturbed(s: Scan, c: Clock) {
    && Sound(c) && StartedAt(s, c.hand) && s.drops == [] && s.clock.guards.held == c.guards.held
    && LoweredTo(c, s.clock.gauges, s.sweep, s.seen)
  }

  lemma UndisturbedStep(s: Scan, c: Clock)
    requires Undisturbed(s, c) && (s.sweep + 1 < SWEEPS || s.seen < |c.gauges|)
    ensures Step(s).1.None? ==> Undisturbed(Step(s).0, c)
    ensures Step(s).1.Some? && Step(s).1.value.Victim? ==> Chosen(c, Step(s).0.clock, Step(s).1.value.index)
  {
    if s.seen < |c.gauges| { AfterOff(c.hand, s.seen, |c.gauges|); }
    forall j | 0 <= j < |c.gauges| ensures Off(c.hand, j, |c.gauges|) == s.seen ==> j == s.clock.hand {
      OffAfter(c.hand, j, |c.gauges|);
    }
  }

  /** `r` is `c` after the scan has chosen `f`. */
  ghost predicate Chosen(c: Clock, r: Clock, f: nat)
    requires Sound(c)
  {
    && Best(c, f) && |r.gauges| == |c.gauges|
    && r.hand == Next(f, |c.gauges|) && r.guards.held == c.guards.held
    && r.gauges[f] == Gauge(1, 0)
    && LoweredTo(c, r.gauges[f := Gauge(0, 0)], c.gauges[f].usage, Off(c.hand, f, |c.gauges|))
  }

  lemma {:induction false} UndisturbedRun(s: Scan, c: Clock)
    requires Undisturbed(s, c)
    ensures Run(s).1.Victim? ==> Chosen(c, Run(s).0, Run(s).1.index)
    decreases SWEEPS - s.sweep, |s.clock.gauges| - s.seen
  {
    if s.sweep + 1 < SWEEPS || s.seen < |c.gauges| {
      UndisturbedStep(s, c);
      if Step(s).1.None? { UndisturbedRun(Step(s).0, c); }
    }
  }

  // ----- conservation -----

  function TotalUsage(gauges: seq<Gauge>): nat {
    if gauges == [] then 0 else TotalUsage(gauges[..|gauges| - 1]) + gauges[|gauges| - 1].usage
  }

  lemma {:induction false} TotalAfter(gauges: seq<Gauge>, j: nat, g: Gauge)
    requires j < |gauges|
    ensures TotalUsage(gauges[j := g]) == TotalUsage(gauges) - gauges[j].usage + g.usage
  {
    var n := |gauges| - 1;
    if j == n { assert gauges[j := g][..n] == gauges[..n]; }
    else {
      assert gauges[j := g][..n] == gauges[..n][j := g];
      TotalAfter(gauges[..n], j, g);
    }
  }

  lemma {:induction false} DropsKeepTotal(c: Clock, gs: seq<Guard>)
    ensures TotalUsage(DropAll(c, gs).gauges) == TotalUsage(c.gauges)
  {
    if gs != [] {
      DropsKeepTotal(c, gs[..|gs| - 1]);
      var d, g := DropAll(c, gs[..|gs| - 1]), gs[|gs| - 1];
      if g.frame < |d.gauges| && d.gauges[g.frame].pin > 0 {
        TotalAfter(d.gauges, g.frame, d.gauges[g.frame].(pin := d.gauges[g.frame].pin - 1));
      }
    }
  }

  /** Every use that a scan takes away is counted as one second chance. */
  lemma {:induction false} ScanConserves(s: Scan)
    requires Scanning(s)
    ensures TotalUsage(Run(s).0.gauges) + Run(s).0.chances == TotalUsage(s.clock.gauges) + s.clock.chances
    decreases SWEEPS - s.sweep, |s.clock.gauges| - s.seen
  {
    var s', b := Step(s).0, Before(s);
    DropsKeepTotal(s.clock, First(s.drops));
    if s.sweep < SWEEPS && s.seen < |s.clock.gauges| { TotalAfter(b.gauges, b.hand, s'.clock.gauges[b.hand]); }
    if Step(s).1.None? { ScanConserves(s'); }
  }

  /**
  Closed form: with no guard dropped the scan takes the unpinned frame with the least usage u
  that the hand meets first. Every unpinned frame loses u uses, those in front of the victim
  one more, and second chances rise by exactly the uses removed. With no unpinned frame nothing changes.
  */
  lemma ClosedForm(c: Clock)
    requires Sound(c)
    ensures var (r, choice) := Run(Start(c, []));
            && TotalUsage(r.gauges) + r.chances == TotalUsage(c.gauges) + c.chances
            && if exists j :: 0 <= j < |c.gauges| && c.gauges[j].pin == 0
               then choice.Victim? && Chosen(c, r, choice.index)
               else choice.AllPinned? && r == c
  {
    ScanConserves(Start(c, []));
    UndisturbedRun(Start(c, []), c);
    ScanDecides(c, []);
    forall k | 0 <= k <= |c.gauges| ensures Dropped(c, [], k) == c { NothingDropped(c, k); }
    forall j | 0 <= j < |c.gauges|
      ensures After(c.hand, Off(c.hand, j, |c.gauges|), |c.gauges|) == j
      ensures SeenPinned(c, [], Off(c.hand, j, |c.gauges|)) <==> c.gauges[j].pin != 0
    {
      OffAfter(c.hand, j, |c.gauges|);
    }
  }

  lemma NothingDropped(c: Clock, k: nat)
    ensures Dropped(c, [], k) == c
  {
  }

  /** At most one frame is the best. */
  lemma BestIsUnique(c: Clock, f: nat, g: nat)
    requires Sound(c) && Best(c, f) && Best(c, g)
    ensures f == g
  {
    OffAfter(c.hand, f, |c.gauges|);
    OffAfter(c.hand, g, |c.gauges|);
  }
}
