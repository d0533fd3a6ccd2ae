/** What a search for a victim finds. */
module PoolV3Search {
  // A search that runs alone finds an unpinned frame whenever there is one, as long as the shared hand goes round
  // evenly. One that does not run alone can be made to miss a frame that is unpinned all the time.

  import opened Storage
  import opened PoolV3
  import opened PoolV3Invariant
  import opened PoolV3Progress
  import opened PoolV3Runs
  import opened PoolV3Schedules

  ghost predicate Searching(s: State, t: nat, stage: LoadStage) {
    t < |s.threads| && s.threads[t].Load? && s.threads[t].stage == stage
  }

  ghost predicate OwnSteps(acts: seq<Action>, t: nat) {
    forall k :: 0 <= k < |acts| ==> acts[k] == Run(t)
  }

  // ----- the hand -----

  /** The hand after `k` more ticks; it is a machine word. */
  ghost function HandAfter(hand: nat, k: nat): nat {
    if k == 0 then hand else (HandAfter(hand, k - 1) + 1) % USIZE
  }

  /** The frame that look `i` of a search looks at. */
  ghost function Seen(s: State, i: nat): nat
    requires |s.frames| > 0
  {
    HandAfter(s.hand, i) % |s.frames|
  }

  lemma {:induction false} TickFirst(hand: nat, k: nat)
    ensures HandAfter((hand + 1) % USIZE, k) == HandAfter(hand, k + 1)
  {
    if k > 0 { TickFirst(hand, k - 1); }
  }

  /** The hand does not wrap during the search, or it wraps onto the same frame. */
  ghost predicate HandGoesRound(s: State)
    requires |s.frames| > 0
  {
    s.hand + 2 * |s.frames| <= USIZE || USIZE % |s.frames| == 0
  }

  lemma ModUnique(x: nat, n: nat, q: nat, r: nat)
    requires r < n && x == q * n + r
    ensures x % n == r
  {
    var d := x / n - q;
    assert d * n == r - x % n;
    assert (d >= 1 ==> d * n >= n) && (d <= -1 ==> d * n + n <= 0);
  }

  lemma NextMod(x: nat, n: nat)
    requires n > 0
    ensures (x + 1) % n == if x % n + 1 == n then 0 else x % n + 1
  {
    if x % n + 1 == n {
      assert (x / n + 1) * n == x / n * n + n;
      ModUnique(x + 1, n, x / n + 1, 0);
    } else {
      ModUnique(x + 1, n, x / n, x % n + 1);
    }
  }

  lemma Regroup(q: nat, c: nat, d: nat, n: nat)
    ensures q * (c * n) + d * n == (q * c + d) * n
  {
  }

  lemma ModDivides(x: nat, c: nat, n: nat)
    requires n > 0 && c > 0 && c * n > 0
    ensures x % (c * n) % n == x % n
  {
    var m := c * n;
    var q, y := x / m, x % m;
    assert x == q * m + y;
    Regroup(q, c, y / n, n);
    ModUnique(x, n, q * c + y / n, y % n);
  }

  lemma {:induction false} StraightHand(hand: nat, k: nat)
    requires hand + k < USIZE
    ensures HandAfter(hand, k) == hand + k
  {
    if k > 0 { StraightHand(hand, k - 1); }
  }

  lemma {:induction false} EvenHand(hand: nat, k: nat, n: nat)
    requires n > 0 && USIZE % n == 0
    ensures HandAfter(hand, k) % n == (hand + k) % n
  {
    if k > 0 {
      var before := HandAfter(hand, k - 1);
      EvenHand(hand, k - 1, n);
      assert USIZE == USIZE / n * n;
      ModDivides(before + 1, USIZE / n, n);
      NextMod(before, n);
      NextMod(hand + k - 1, n);
    }
  }

  /** Where a look of the second sweep must be for the hand to be at frame `f`. */
  lemma SecondSweepAt(hand: nat, n: nat, f: nat) returns (i: nat)
    requires f < n
    ensures n <= i < 2 * n && (hand + i) % n == f
  {
    var h := hand % n;
    i := if f >= h then n + f - h else 2 * n + f - h;
    var turns := if f >= h then 1 else 2;
    assert (hand / n + turns) * n == hand / n * n + turns * n;
    ModUnique(hand + i, n, hand / n + turns, f);
  }

  /** An even hand looks at every frame in the second sweep. */
  lemma SecondSweepCovers(s: State, f: nat) returns (i: nat)
    requires f < |s.frames| && HandGoesRound(s)
    ensures |s.frames| <= i < 2 * |s.frames| && Seen(s, i) == f
  {
    i := SecondSweepAt(s.hand, |s.frames|, f);
    if USIZE % |s.frames| == 0 { EvenHand(s.hand, i, |s.frames|); } else { StraightHand(s.hand, i); }
  }

  // ----- one look -----

  /** A look that takes nothing: it spares an unpinned frame once. */
  ghost function Passed(s: State, t: nat, k: nat): State
    requires Searching(s, t, Choosing(k)) && |s.frames| > 0
  {
    var f := s.hand % |s.frames|;
    var frames := if s.frames[f].pin == 0 then s.frames[f := s.frames[f].(referenced := false)] else s.frames;
    GotoStage(s, t, Choosing(k + 1)).(hand := (s.hand + 1) % USIZE, frames := frames)
  }

  /** The look takes its frame: it is unpinned, and the second sweep or unreferenced. */
  ghost predicate TakesFrame(s: State, k: nat)
    requires |s.frames| > 0
  {
    var frame := s.frames[s.hand % |s.frames|];
    frame.pin == 0 && (k >= |s.frames| || !frame.referenced)
  }

  /** The search has reserved frame `f`. */
  ghost predicate Ends(s: State, t: nat, f: nat) {
    t < |s.threads| && s.threads[t].Load? && s.threads[t].stage.Reserved? && s.threads[t].stage.f == f
  }

  lemma OwnStep(s: State, t: nat) returns (next: State)
    requires Inv(s) && CanRun(s, t)
    ensures Takes(s, Run(t), next) && next == RunStep(s, t) && Inv(next)
  {
    KeepStep(s, Run(t));
    next := RunStep(s, t);
  }

  lemma EvictingIsPinned(s: State, f: nat)
    requires Inv(s) && f < |s.frames| && s.frames[f].state.Evicting?
    ensures s.frames[f].pin > 0
  {
    assert FrameOk(s, f);
    PinIsCounted(s, s.frames[f].state.pending.owner);
  }

  /** In an unpinned frame nothing stands in the way of a reservation. */
  lemma UnpinnedIsReservable(s: State, f: nat)
    requires Inv(s) && f < |s.frames| && !s.frames[f].state.Evicting?
    ensures var snapshot := if s.frames[f].state.Valid? then Some(s.frames[f].state.page) else None;
            Reservable(s, f, snapshot) <==> s.frames[f].pin == 0
  {
    assert FrameOk(s, f);
  }

  lemma LookAtEvicting(s: State, t: nat, k: nat) returns (path: seq<State>, acts: seq<Action>)
    requires Inv(s) && Searching(s, t, Choosing(k)) && k < 2 * |s.frames|
    requires s.frames[s.hand % |s.frames|].state.Evicting?
    ensures Path(path, acts) && path[0] == s && OwnSteps(acts, t) && Inv(path[|acts|])
    ensures !TakesFrame(s, k) && path[|acts|] == Passed(s, t, k)
  {
    EvictingIsPinned(s, s.hand % |s.frames|);
    var looking := OwnStep(s, t);
    var next := OwnStep(looking, t);
    path, acts := [s, looking, next], [Run(t), Run(t)];
    assert Takes(path[0], acts[0], path[1]);
    assert next == Passed(s, t, k);
  }

  lemma LookAtOther(s: State, t: nat, k: nat) returns (path: seq<State>, acts: seq<Action>, snapshot: Option<PageId>)
    requires Inv(s) && Searching(s, t, Choosing(k)) && k < 2 * |s.frames|
    requires !s.frames[s.hand % |s.frames|].state.Evicting?
    ensures Path(path, acts) && path[0] == s && OwnSteps(acts, t) && Inv(path[|acts|])
    ensures path[|acts|] == GotoStage(s, t, Reserving(k, s.hand % |s.frames|, snapshot)).(hand := (s.hand + 1) % USIZE)
    ensures Reservable(s, s.hand % |s.frames|, snapshot) <==> s.frames[s.hand % |s.frames|].pin == 0
  {
    var state := s.frames[s.hand % |s.frames|].state;
    snapshot := if state.Valid? then Some(state.page) else None;
    UnpinnedIsReservable(s, s.hand % |s.frames|);
    var looking := OwnStep(s, t);
    var reserving := OwnStep(looking, t);
    path, acts := [s, looking, reserving], [Run(t), Run(t)];
    assert Takes(path[0], acts[0], path[1]);
  }

  lemma Decide(s: State, t: nat, k: nat, snapshot: Option<PageId>) returns (path: seq<State>, acts: seq<Action>)
    requires Searching(s, t, Choosing(k)) && k < 2 * |s.frames|
    requires Reservable(s, s.hand % |s.frames|, snapshot) <==> s.frames[s.hand % |s.frames|].pin == 0
    requires Inv(GotoStage(s, t, Reserving(k, s.hand % |s.frames|, snapshot)).(hand := (s.hand + 1) % USIZE))
    ensures Path(path, acts) && OwnSteps(acts, t) && Inv(path[|acts|])
    ensures path[0] == GotoStage(s, t, Reserving(k, s.hand % |s.frames|, snapshot)).(hand := (s.hand + 1) % USIZE)
    ensures if TakesFrame(s, k) then Searching(path[|acts|], t, Reserved(s.hand % |s.frames|, snapshot))
            else path[|acts|] == Passed(s, t, k)
  {
    var reserving := GotoStage(s, t, Reserving(k, s.hand % |s.frames|, snapshot)).(hand := (s.hand + 1) % USIZE);
    var next := OwnStep(reserving, t);
    path, acts := [reserving, next], [Run(t)];
  }

  /** One look of a search that nobody interferes with. */
  lemma LookAlone(s: State, t: nat, k: nat) returns (path: seq<State>, acts: seq<Action>)
    requires Inv(s) && Searching(s, t, Choosing(k)) && k < 2 * |s.frames|
    ensures Path(path, acts) && path[0] == s && OwnSteps(acts, t) && Inv(path[|acts|])
    ensures if TakesFrame(s, k) then Ends(path[|acts|], t, s.hand % |s.frames|) else path[|acts|] == Passed(s, t, k)
  {
    if s.frames[s.hand % |s.frames|].state.Evicting? {
      path, acts := LookAtEvicting(s, t, k);
    } else {
      var snapshot, more, moreActs;
      path, acts, snapshot := LookAtOther(s, t, k);
      more, moreActs := Decide(s, t, k, snapshot);
      path, acts := Join(path, acts, more, moreActs);
    }
  }

  // ----- the two sweeps -----

  /** One of the `j` looks from here has been at frame `f`. */
  ghost predicate SeenBefore(s: State, f: nat, j: nat)
    requires |s.frames| > 0
  {
    exists i :: 0 <= i < j && Seen(s, i) == f
  }

  /** From look `k` on, look `k + j` takes its frame unless an earlier one does. */
  ghost predicate WouldTake(s: State, k: nat, j: nat)
    requires |s.frames| > 0
  {
    var f := Seen(s, j);
    s.frames[f].pin == 0 && (k + j >= |s.frames| || !s.frames[f].referenced || SeenBefore(s, f, j))
  }

  ghost predicate TakesSome(s: State, k: nat)
    requires |s.frames| > 0
  {
    exists j :: 0 <= j && k + j < 2 * |s.frames| && WouldTake(s, k, j)
  }

  ghost predicate SamePins(s: State, r: State) {
    |r.frames| == |s.frames|
    && forall f :: 0 <= f < |s.frames| ==> r.frames[f].pin == s.frames[f].pin && r.frames[f].state == s.frames[f].state
  }

  lemma SeenNext(s: State, t: nat, k: nat, j: nat)
    requires Searching(s, t, Choosing(k)) && |s.frames| > 0
    ensures Seen(Passed(s, t, k), j) == Seen(s, j + 1)
  {
    TickFirst(s.hand, j);
  }

  lemma SeenBeforeNext(s: State, t: nat, k: nat, f: nat, j: nat)
    requires Searching(s, t, Choosing(k)) && |s.frames| > 0
    ensures SeenBefore(s, f, j + 1) <==> Seen(s, 0) == f || SeenBefore(Passed(s, t, k), f, j)
  {
    var s' := Passed(s, t, k);
    if i :| 0 <= i < j && Seen(s', i) == f { SeenNext(s, t, k, i); }
    if i :| 0 <= i < j + 1 && Seen(s, i) == f {
      if i > 0 { SeenNext(s, t, k, i - 1); }
    }
  }

  lemma WouldTakeNext(s: State, t: nat, k: nat, j: nat)
    requires Searching(s, t, Choosing(k)) && |s.frames| > 0 && !TakesFrame(s, k)
    ensures WouldTake(Passed(s, t, k), k + 1, j) <==> WouldTake(s, k, j + 1)
  {
    SeenNext(s, t, k, j);
    SeenBeforeNext(s, t, k, Seen(s, j + 1), j);
  }

  lemma TakesSomeNext(s: State, t: nat, k: nat)
    requires Searching(s, t, Choosing(k)) && k < 2 * |s.frames| && !TakesFrame(s, k)
    ensures TakesSome(Passed(s, t, k), k + 1) <==> TakesSome(s, k)
  {
    var s' := Passed(s, t, k);
    if TakesSome(s', k + 1) {
      var j :| 0 <= j && k + 1 + j < 2 * |s.frames| && WouldTake(s', k + 1, j);
      WouldTakeNext(s, t, k, j);
    }
    if TakesSome(s, k) {
      var j :| 0 <= j && k + j < 2 * |s.frames| && WouldTake(s, k, j);
      if j > 0 { WouldTakeNext(s, t, k, j - 1); }
    }
  }

  /** Where the two sweeps have got when nothing interferes: to a victim, or to their end. */
  ghost predicate Swept(s: State, r: State, t: nat, k: nat)
    requires |s.frames| > 0
  {
    if TakesSome(s, k) then exists f :: 0 <= f < |s.frames| && Ends(r, t, f) && s.frames[f].pin == 0
    else Searching(r, t, Choosing(2 * |s.frames|)) && SamePins(s, r)
  }

  lemma {:induction false} SweepAlone(s: State, t: nat, k: nat) returns (path: seq<State>, acts: seq<Action>)
    requires Inv(s) && Searching(s, t, Choosing(k)) && k <= 2 * |s.frames|
    ensures Path(path, acts) && path[0] == s && OwnSteps(acts, t) && Inv(path[|acts|])
    ensures Swept(s, path[|acts|], t, k)
    decreases 2 * |s.frames| - k
  {
    if k == 2 * |s.frames| {
      path, acts := [s], [];
    } else {
      path, acts := LookAlone(s, t, k);
      if TakesFrame(s, k) {
        TakenIsSwept(s, path[|acts|], t, k);
      } else {
        TakesSomeNext(s, t, k);
        var more, moreActs := SweepAlone(Passed(s, t, k), t, k + 1);
        SweptOn(s, path[|acts|], more[|moreActs|], t, k);
        path, acts := Join(path, acts, more, moreActs);
      }
    }
  }

  lemma TakenIsSwept(s: State, r: State, t: nat, k: nat)
    requires |s.frames| > 0 && k < 2 * |s.frames| && TakesFrame(s, k) && Ends(r, t, s.hand % |s.frames|)
    ensures Swept(s, r, t, k)
  {
    assert WouldTake(s, k, 0);
  }

  lemma SweptOn(s: State, mid: State, r: State, t: nat, k: nat)
    requires Searching(s, t, Choosing(k)) && |s.frames| > 0 && mid == Passed(s, t, k)
    requires TakesSome(mid, k + 1) <==> TakesSome(s, k)
    requires Swept(mid, r, t, k + 1)
    ensures Swept(s, r, t, k)
  {
    assert SamePins(s, mid);
    if TakesSome(s, k) {
      var f :| 0 <= f < |mid.frames| && Ends(r, t, f) && mid.frames[f].pin == 0;
      assert s.frames[f].pin == 0;
    }
  }

  // ----- after two sweeps in vain -----

  ghost predicate SomeEvicting(s: State, from: nat) {
    exists f :: from <= f < |s.frames| && s.frames[f].state.Evicting?
  }

  /** The search waits for a load that holds some frame. */
  ghost predicate AwaitsSome(s: State, r: State, t: nat) {
    && t < |r.threads| && r.threads[t].Load? && r.threads[t].stage.AwaitingVictim?
    && exists f :: 0 <= f < |s.frames| && s.frames[f].state == Evicting(r.threads[t].stage.on)
  }

  ghost predicate ReportsAllPinned(r: State, t: nat) {
    t < |r.threads| && r.threads[t] == Idle(Failed(AllFramesPinned))
  }

  lemma GiveUpAlone(s: State, t: nat) returns (path: seq<State>, acts: seq<Action>)
    requires Inv(s) && Searching(s, t, GivingUp)
    ensures Path(path, acts) && path[0] == s && OwnSteps(acts, t) && ReportsAllPinned(path[|acts|], t)
  {
    var given := OwnStep(s, t);
    var idle := OwnStep(given, t);
    path, acts := [s, given, idle], [Run(t), Run(t)];
    assert Takes(path[0], acts[0], path[1]);
  }

  lemma ScanNext(s: State, t: nat, j: nat) returns (path: seq<State>, acts: seq<Action>, next: State)
    requires Inv(s) && Searching(s, t, Scanning(j)) && j <= |s.frames|
    ensures acts == [Run(t)] && path == [s, next] && Path(path, acts) && Inv(next) && next.frames == s.frames
    ensures if j == |s.frames| then Searching(next, t, GivingUp)
            else if s.frames[j].state.Evicting? then AwaitsSome(s, next, t)
            else Searching(next, t, Scanning(j + 1))
  {
    next := OwnStep(s, t);
    path, acts := [s, next], [Run(t)];
  }

  lemma {:induction false} ScanAlone(s: State, t: nat, j: nat) returns (path: seq<State>, acts: seq<Action>)
    requires Inv(s) && Searching(s, t, Scanning(j)) && j <= |s.frames|
    ensures Path(path, acts) && path[0] == s && OwnSteps(acts, t)
    ensures if SomeEvicting(s, j) then AwaitsSome(s, path[|acts|], t) else ReportsAllPinned(path[|acts|], t)
    decreases |s.frames| - j
  {
    var next;
    path, acts, next := ScanNext(s, t, j);
    if j == |s.frames| {
      var more, moreActs := GiveUpAlone(next, t);
      path, acts := Join(path, acts, more, moreActs);
    } else if !s.frames[j].state.Evicting? {
      var more, moreActs := ScanAlone(next, t, j + 1);
      path, acts := Join(path, acts, more, moreActs);
    }
  }

  /** How a search ends that nobody interferes with. */
  ghost predicate SearchEnds(s: State, r: State, t: nat, takes: bool) {
    if takes then exists f :: 0 <= f < |s.frames| && Ends(r, t, f) && s.frames[f].pin == 0
    else if SomeEvicting(s, 0) then AwaitsSome(s, r, t)
    else ReportsAllPinned(r, t)
  }

  /**
  A search that runs alone from any state of the invariant reserves an unpinned frame if and only
  if one of its looks is at an unpinned frame in the second sweep, or at one that is unreferenced
  or comes up for the second time in the first. Otherwise it waits for a frame being evicted, or
  reports that all frames are pinned.
  */
  lemma SearchAlone(s: State, t: nat) returns (path: seq<State>, acts: seq<Action>)
    requires Inv(s) && Searching(s, t, Choosing(0))
    ensures Path(path, acts) && path[0] == s && OwnSteps(acts, t)
    ensures SearchEnds(s, path[|acts|], t, TakesSome(s, 0))
  {
    path, acts := SweepAlone(s, t, 0);
    if !TakesSome(s, 0) {
      var swept := path[|acts|];
      var scanning := OwnStep(swept, t);
      assert Path([swept, scanning], [Run(t)]);
      path, acts := Join(path, acts, [swept, scanning], [Run(t)]);
      var more, moreActs := ScanAlone(scanning, t, 0);
      path, acts := Join(path, acts, more, moreActs);
    }
  }

  ghost predicate SomeUnpinned(s: State) {
    exists f :: 0 <= f < |s.frames| && s.frames[f].pin == 0
  }

  /** The load that the thread waited for, to search again, is finished. */
  ghost predicate WaitIsOver(s: State, t: nat) {
    && t < |s.threads| && s.threads[t].Load? && s.threads[t].stage.AwaitingVictim?
    && s.threads[t].stage.on in s.done
  }

  /** After a wait the search begins anew. */
  lemma SearchesAgain(s: State, t: nat) returns (path: seq<State>, acts: seq<Action>)
    requires Inv(s) && WaitIsOver(s, t)
    ensures Path(path, acts) && path[0] == s && OwnSteps(acts, t) && Inv(path[|acts|])
    ensures path[|acts|] == GotoStage(s, t, Choosing(0))
  {
    var next := OwnStep(s, t);
    path, acts := [s, next], [Run(t)];
  }

  lemma FirstSearchFinds(s: State, t: nat) returns (path: seq<State>, acts: seq<Action>)
    requires Inv(s) && Searching(s, t, Choosing(0)) && HandGoesRound(s)
    ensures Path(path, acts) && path[0] == s && OwnSteps(acts, t)
    ensures SearchEnds(s, path[|acts|], t, SomeUnpinned(s))
  {
    path, acts := SearchAlone(s, t);
    if f :| 0 <= f < |s.frames| && s.frames[f].pin == 0 {
      var i := SecondSweepCovers(s, f);
      assert WouldTake(s, 0, i);
    }
    if TakesSome(s, 0) {
      var j :| 0 <= j && j < 2 * |s.frames| && WouldTake(s, 0, j);
      assert s.frames[Seen(s, j)].pin == 0;
    }
  }

  /**
  With a hand that goes round evenly: a search that runs alone, from its start or from the end of
  a wait, reserves an unpinned frame if and only if there is one. Otherwise it waits for a frame
  being evicted if there is one, and else reports that all frames are pinned.
  */
  lemma AloneFindsUnpinned(s: State, t: nat) returns (path: seq<State>, acts: seq<Action>)
    requires Inv(s) && (Searching(s, t, Choosing(0)) || WaitIsOver(s, t)) && HandGoesRound(s)
    ensures Path(path, acts) && path[0] == s && OwnSteps(acts, t)
    ensures SearchEnds(s, path[|acts|], t, SomeUnpinned(s))
  {
    if Searching(s, t, Choosing(0)) {
      path, acts := FirstSearchFinds(s, t);
    } else {
      path, acts := SearchesAgain(s, t);
      var again := path[|acts|];
      var more, moreActs := FirstSearchFinds(again, t);
      SameSearch(s, again, more[|moreActs|], t);
      path, acts := Join(path, acts, more, moreActs);
    }
  }

  lemma SameSearch(s: State, again: State, r: State, t: nat)
    requires again.frames == s.frames && SearchEnds(again, r, t, SomeUnpinned(again))
    ensures SearchEnds(s, r, t, SomeUnpinned(s))
  {
    assert SomeUnpinned(again) <==> SomeUnpinned(s);
    assert SomeEvicting(again, 0) <==> SomeEvicting(s, 0);
  }

  /**
  Without the proviso it is false: where the hand wraps, three frames are looked at in the order
  0, 1, 2, 0, 0, 1, so frame 2 is spared in the first sweep and missed in the second.
  */
  lemma WrapMissesAFrame(s: State, t: nat) returns (path: seq<State>, acts: seq<Action>)
    requires Inv(s) && Searching(s, t, Choosing(0)) && |s.frames| == 3 && s.hand == USIZE - 4
    requires s.frames[0].pin > 0 && s.frames[1].pin > 0 && s.frames[2].pin == 0 && s.frames[2].referenced
    requires !SomeEvicting(s, 0)
    ensures Path(path, acts) && path[0] == s && OwnSteps(acts, t) && ReportsAllPinned(path[|acts|], t)
  {
    path, acts := SearchAlone(s, t);
    forall j | 0 <= j < 6 ensures Seen(s, j) == [0, 1, 2, 0, 0, 1][j] {
      if j < 4 { StraightHand(s.hand, j); }
      else {
        StraightHand(s.hand, 3);
        assert HandAfter(s.hand, 4) == 0 && HandAfter(s.hand, 5) == 1;
      }
    }
    forall j | 0 <= j < 6 ensures !WouldTake(s, 0, j) {
      if j == 2 { assert !SeenBefore(s, 2, 2); }
    }
  }

  // ----- a state in which that happens -----

  ghost function Page(i: nat): PageId { PageId(1, i) }

  const Blank := Image([0], 0)

  /** Guards pin frames 0 and 1, nobody uses frame 2, and thread 0 loads a fourth page. */
  ghost function AtTheWrap(): State {
    var pages := {Page(0), Page(1), Page(2), Page(3)};
    State(map p | p in pages :: Cell(Blank, false),
          [Frame(Valid(Page(0)), Blank, 1, true, false), Frame(Valid(Page(1)), Blank, 1, true, false),
           Frame(Valid(Page(2)), Blank, 0, true, false)],
          map[Page(0) := Ready(0), Page(1) := Ready(1), Page(2) := Ready(2), Page(3) := Loading(Pending(0, 2))],
          USIZE - 4, [Load(Page(3), Normal, Pending(0, 2), Choosing(0))],
          map[0 := Guard(Page(0), 0, false), 1 := Guard(Page(1), 1, false)], {}, 3,
          map p | p in pages :: [Blank.bytes])
  }

  lemma AtTheWrapThreads()
    ensures ThreadOk(AtTheWrap(), 0)
  {
  }

  lemma AtTheWrapFrames(f: nat)
    requires f < 3
    ensures FrameOk(AtTheWrap(), f)
  {
  }

  lemma AtTheWrapPages(p: PageId)
    ensures p in AtTheWrap().table ==> EntryOk(AtTheWrap(), p)
    ensures p in AtTheWrap().history ==> PageOk(AtTheWrap(), p)
  {
  }

  lemma AtTheWrapGuards(g: nat)
    ensures g in AtTheWrap().guards ==> GuardOk(AtTheWrap(), g)
  {
  }

  lemma AtTheWrapCore()
    ensures Core(AtTheWrap())
  {
    var s := AtTheWrap();
    AtTheWrapThreads();
    forall f | 0 <= f < 3 ensures FrameOk(s, f) { AtTheWrapFrames(f); }
    forall p | p in s.table ensures EntryOk(s, p) { AtTheWrapPages(p); }
    forall p | p in s.history ensures PageOk(s, p) { AtTheWrapPages(p); }
    forall g | g in s.guards ensures GuardOk(s, g) { AtTheWrapGuards(g); }
  }

  lemma AtTheWrapPins(f: nat)
    requires f < 3
    ensures PinOk(AtTheWrap(), f)
  {
    var s := AtTheWrap();
    assert ThreadPins(s.threads, f) == {};
    assert GuardPins(s.guards, f) == if f < 2 then {f} else {};
  }

  lemma WrapMisses() returns (path: seq<State>, acts: seq<Action>)
    ensures Inv(AtTheWrap()) && AtTheWrap().frames[2].pin == 0
    ensures Path(path, acts) && path[0] == AtTheWrap() && OwnSteps(acts, 0) && ReportsAllPinned(path[|acts|], 0)
  {
    AtTheWrapCore();
    forall f | 0 <= f < 3 ensures PinOk(AtTheWrap(), f) { AtTheWrapPins(f); }
    path, acts := WrapMissesAFrame(AtTheWrap(), 0);
  }
}
