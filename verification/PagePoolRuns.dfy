/** Whole runs of a pool behind one lock. */
module PagePoolRuns {
  // Over every run and whatever the store does, the pool is a plain page map.

  import opened Storage
  import opened Clock
  import opened PagePool
  import opened PagePoolProofs

  // ----- runs -----

  datatype Event =
    | FetchEvent(page: PageId, mode: AccessMode, around: Surroundings)
    | WriteEvent(guard: Guard, data: Bytes)
    | DropEvent(guard: Guard)
    | FlushFrameEvent(frame: nat, outcome: WriteOutcome)

  /**
  One event. Guards are used without the lock, so a flush is taken frame by frame, with guard writes
  and drops in between. A guard that has been dropped can neither write nor be dropped again.
  */
  ghost function Apply(s: Pool, e: Event): Pool
    requires Inv(s)
  {
    match e
    case FetchEvent(p, mode, around) => Fetch(s, p, mode, around).0
    case WriteEvent(g, data) => if g in s.clock.guards.held then WriteVia(s, g, data) else s
    case DropEvent(g) => s.(clock := DropOne(s.clock, g))
    case FlushFrameEvent(f, outcome) => FlushFrame(s, f, outcome)
  }

  /** The same event on a plain page map: writes through live guards, and nothing else, change it. */
  ghost function ApplyToMap(m: map<PageId, Bytes>, s: Pool, e: Event): map<PageId, Bytes> {
    if e.WriteEvent? && e.guard in s.clock.guards.held then m[e.guard.page := e.data] else m
  }

  ghost function Fetched(s: Pool, e: Event): nat
    requires Inv(s)
  {
    if e.FetchEvent? && Fetch(s, e.page, e.mode, e.around).1.Got? then 1 else 0
  }

  /** A pool, the page map it should amount to, and the number of successful fetches so far. */
  datatype Moment = Moment(pool: Pool, pages: map<PageId, Bytes>, fetched: nat)

  ghost predicate Follows(a: Moment, e: Event, b: Moment) {
    && Inv(a.pool) && b.pool == Apply(a.pool, e)
    && b.pages == ApplyToMap(a.pages, a.pool, e) && b.fetched == a.fetched + Fetched(a.pool, e)
  }

  ghost predicate FollowsAt(ms: seq<Moment>, es: seq<Event>, i: nat)
    requires |ms| == |es| + 1 && i < |es|
  {
    Follows(ms[i], es[i], ms[i + 1])
  }

  ghost predicate Path(ms: seq<Moment>, es: seq<Event>) {
    |ms| == |es| + 1 && forall i | 0 <= i < |es| :: FollowsAt(ms, es, i)
  }

  ghost predicate Faithful(a: Moment, fetched: int) {
    && Inv(a.pool) && Content(a.pool) == a.pages
    && a.pool.hits + a.pool.misses == fetched + a.fetched
  }

  ghost predicate Refines(s: Pool, e: Event)
    requires Inv(s)
  {
    && Inv(Apply(s, e)) && Content(Apply(s, e)) == ApplyToMap(Content(s), s, e)
    && Apply(s, e).hits + Apply(s, e).misses == s.hits + s.misses + Fetched(s, e)
  }

  lemma FetchStep(s: Pool, e: Event)
    requires Inv(s) && e.FetchEvent?
    ensures Refines(s, e)
  {
    FetchRefines(s, e.page, e.mode, e.around);
  }

  lemma WriteStep(s: Pool, e: Event)
    requires Inv(s) && e.WriteEvent?
    ensures Refines(s, e)
  {
    if e.guard in s.clock.guards.held { WriteViaRefines(s, e.guard, e.data); }
  }

  lemma DropStep(s: Pool, e: Event)
    requires Inv(s) && e.DropEvent?
    ensures Refines(s, e)
  {
    DropRefines(s, e.guard);
  }

  lemma FlushStep(s: Pool, e: Event)
    requires Inv(s) && e.FlushFrameEvent?
    ensures Refines(s, e)
  {
    FlushFrameRefines(s, e.frame, e.outcome);
  }

  lemma StepRefines(s: Pool, e: Event)
    requires Inv(s)
    ensures Refines(s, e)
  {
    match e
    case FetchEvent(_, _, _) => FetchStep(s, e);
    case WriteEvent(_, _) => WriteStep(s, e);
    case DropEvent(_) => DropStep(s, e);
    case FlushFrameEvent(_, _) => FlushStep(s, e);
  }

  lemma StaysFaithful(ms: seq<Moment>, es: seq<Event>, i: nat, fetched: int)
    requires Path(ms, es) && i < |es| && Faithful(ms[i], fetched)
    ensures Faithful(ms[i + 1], fetched)
  {
    assert FollowsAt(ms, es, i);
    StepRefines(ms[i].pool, es[i]);
  }

  lemma {:induction false} PathIsFaithful(ms: seq<Moment>, es: seq<Event>, i: nat, fetched: int)
    requires Path(ms, es) && Faithful(ms[0], fetched) && i <= |es|
    ensures Faithful(ms[i], fetched)
  {
    if i > 0 {
      PathIsFaithful(ms, es, i - 1, fetched);
      StaysFaithful(ms, es, i - 1, fetched);
    }
  }

  /**
  Main result for the pools behind one lock. Over any run of fetches, guard writes, drops and
  flushes, with any I/O failing, the pool is the page map that the guard writes alone describe,
  every live guard reads its page's content, and hits plus misses are the successful fetches.
  */
  lemma PoolRefinesMap(ms: seq<Moment>, es: seq<Event>)
    requires Path(ms, es) && Faithful(ms[0], 0)
    ensures var last := ms[|es|];
            && Inv(last.pool) && Content(last.pool) == last.pages
            && last.pool.hits + last.pool.misses == last.fetched
            && forall g :: g in last.pool.clock.guards.held ==>
                 && g.frame < |last.pool.frames| && g.page in last.pages
                 && last.pool.frames[g.frame].data == last.pages[g.page]
  {
    PathIsFaithful(ms, es, |es|, 0);
    var s := ms[|es|].pool;
    forall g | g in s.clock.guards.held
      ensures g.frame < |s.frames| && g.page in Content(s) && s.frames[g.frame].data == Content(s)[g.page]
    {
      GuardSees(s, g);
    }
  }

  /** The moment at which a run from `s` begins. */
  ghost function Now(s: Pool): (m: Moment)
    requires Inv(s)
    ensures Faithful(m, 0) && m.pool == s
  {
    Moment(s, Content(s), s.hits + s.misses)
  }

  lemma NextMoment(a: Moment, e: Event) returns (b: Moment)
    requires Inv(a.pool)
    ensures Follows(a, e, b) && Inv(b.pool)
  {
    StepRefines(a.pool, e);
    b := Moment(Apply(a.pool, e), ApplyToMap(a.pages, a.pool, e), a.fetched + Fetched(a.pool, e));
  }

  /** A run can always be continued. */
  lemma ExtendPath(ms: seq<Moment>, es: seq<Event>, e: Event) returns (longer: seq<Moment>)
    requires Path(ms, es) && Inv(ms[|es|].pool)
    ensures Path(longer, es + [e]) && longer[..|ms|] == ms && Follows(ms[|es|], e, longer[|es| + 1])
  {
    var b := NextMoment(ms[|es|], e);
    longer := ms + [b];
    forall i | 0 <= i <= |es| ensures FollowsAt(longer, es + [e], i) {
      if i < |es| { assert FollowsAt(ms, es, i); }
    }
  }

  lemma SameFrameCount(s: Pool, e: Event)
    requires Inv(s)
    ensures |Apply(s, e).frames| == |s.frames|
  {
    match e
    case FetchEvent(_, _, _) =>
    case WriteEvent(_, _) =>
    case DropEvent(_) =>
    case FlushFrameEvent(_, _) =>
  }

  /** One event on any pool; one that breaks the invariant stays as it is. */
  ghost function ApplyOne(s: Pool, e: Event): Pool {
    if Inv(s) then Apply(s, e) else s
  }

  /** The pool after a whole sequence of events. */
  ghost function ApplyAll(s: Pool, es: seq<Event>): Pool
    decreases |es|
  {
    if es == [] then s else ApplyOne(ApplyAll(s, es[..|es| - 1]), es[|es| - 1])
  }

  lemma {:induction false} ApplyAllKeeps(s: Pool, es: seq<Event>)
    requires Inv(s)
    ensures Inv(ApplyAll(s, es)) && |ApplyAll(s, es).frames| == |s.frames|
    decreases |es|
  {
    if es != [] {
      var before := ApplyAll(s, es[..|es| - 1]);
      ApplyAllKeeps(s, es[..|es| - 1]);
      StepRefines(before, es[|es| - 1]);
      SameFrameCount(before, es[|es| - 1]);
    }
  }

  lemma ApplyOneMore(s: Pool, es: seq<Event>, e: Event)
    ensures ApplyAll(s, es + [e]) == ApplyOne(ApplyAll(s, es), e)
  {
    assert (es + [e])[..|es|] == es;
  }

  lemma {:induction false} ApplyInTwo(s: Pool, es: seq<Event>, more: seq<Event>)
    ensures ApplyAll(s, es + more) == ApplyAll(ApplyAll(s, es), more)
    decreases |more|
  {
    if more == [] {
      assert es + more == es;
    } else {
      var most, e := more[..|more| - 1], more[|more| - 1];
      assert es + more == (es + most) + [e];
      ApplyInTwo(s, es, most);
      ApplyOneMore(s, es + most, e);
    }
  }

  /** No run gets stuck: any sequence of events can happen to any pool. */
  lemma {:induction false} EveryRunExists(a: Moment, es: seq<Event>) returns (ms: seq<Moment>)
    requires Inv(a.pool)
    ensures Path(ms, es) && ms[0] == a && Inv(ms[|es|].pool)
    decreases |es|
  {
    ms := [a];
    if es != [] {
      var before := EveryRunExists(a, es[..|es| - 1]);
      ms := ExtendPath(before, es[..|es| - 1], es[|es| - 1]);
      assert es[..|es| - 1] + [es[|es| - 1]] == es;
      StepRefines(before[|es| - 1].pool, es[|es| - 1]);
    }
  }

  lemma NextMomentIs(ms: seq<Moment>, es: seq<Event>, i: nat)
    requires Path(ms, es) && i < |es|
    ensures ms[i + 1].pool == ApplyOne(ms[i].pool, es[i])
  {
    assert FollowsAt(ms, es, i);
  }

  /** The moments of a run are what its events make of its first pool. */
  lemma {:induction false} MomentIs(ms: seq<Moment>, es: seq<Event>, i: nat)
    requires Path(ms, es) && i <= |es|
    ensures ms[i].pool == ApplyAll(ms[0].pool, es[..i])
  {
    if i > 0 {
      MomentIs(ms, es, i - 1);
      NextMomentIs(ms, es, i - 1);
      assert es[..i] == es[..i - 1] + [es[i - 1]];
      ApplyOneMore(ms[0].pool, es[..i - 1], es[i - 1]);
    }
  }

  /** The run of a pool through a sequence of events, from a moment at which it is the page map it amounts to. */
  lemma RunFrom(s: Pool, es: seq<Event>) returns (ms: seq<Moment>)
    requires Inv(s)
    ensures Path(ms, es) && ms[0].pool == s && Faithful(ms[0], 0)
    ensures Inv(ApplyAll(s, es)) && ms[|es|].pool == ApplyAll(s, es) && ms[|es|].pages == Content(ApplyAll(s, es))
  {
    ms := EveryRunExists(Now(s), es);
    PathIsFaithful(ms, es, |es|, 0);
    MomentIs(ms, es, |es|);
    assert es[..|es|] == es;
  }
}
