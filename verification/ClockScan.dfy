/** The clock that a locked pool runs over its frames. */
module ClockScan {
  // The first pool looks at a pin count and moves on; the second takes a pin before it looks at the usage
  // count and gives the pin back with the second chance. For whoever holds the pool's lock both are one look.

  import opened Storage
  import opened Clock
  import opened PagePool

  class Scanner {
    var gauges: seq<Gauge>
    var hand: nat
    var chances: nat

    /** The page guards that callers hold. */
    var guards: multiset<Guard>

    /** Whether the scan reserves the frames that it looks at. */
    const reserving: bool

    function State(): Clock
      reads this
    {
      Clock(gauges, hand, chances, Guards(guards))
    }

    constructor (capacity: nat, reserving: bool)
      requires capacity > 0
      ensures State() == Clock(seq(capacity, i => Gauge(0, 0)), 0, 0, Guards(multiset{}))
      ensures this.reserving == reserving
    {
      gauges := seq(capacity, i => Gauge(0, 0));
      hand, chances, guards := 0, 0, multiset{};
      this.reserving := reserving;
    }

    // ----- guards -----

    /** A guard is dropped; this needs no lock. */
    method DropGuard(g: Guard)
      modifies this`gauges, this`guards
      ensures State() == DropOne(old(State()), g)
    {
      if g in guards && g.frame < |gauges| && gauges[g.frame].pin > 0 {
        Unpin(g.frame);
        guards := guards - multiset{g};
      }
    }

    method DropGuards(gs: seq<Guard>)
      modifies this`gauges, this`guards
      ensures State() == DropAll(old(State()), gs)
    {
      ghost var c := State();
      for k := 0 to |gs|
        invariant State() == DropAll(c, gs[..k])
      {
        DropGuard(gs[k]);
        assert gs[..k + 1][..k] == gs[..k];
      }
      assert gs[..|gs|] == gs;
    }

    method Unpin(index: nat)
      requires index < |gauges| && gauges[index].pin > 0
      modifies this`gauges
      ensures gauges == old(gauges)[index := old(gauges[index]).(pin := old(gauges[index].pin) - 1)]
    {
      gauges := gauges[index := gauges[index].(pin := gauges[index].pin - 1)];
    }

    /** Whatever pins a reserved victim has, it is free again. */
    method ClearPin(index: nat)
      requires index < |gauges|
      modifies this`gauges
      ensures gauges == old(gauges)[index := old(gauges[index]).(pin := 0)]
    {
      gauges := gauges[index := gauges[index].(pin := 0)];
    }

    /** A new guard on a frame whose pin is already counted. */
    method Handout(g: Guard)
      modifies this`guards
      ensures guards == old(guards) + multiset{g}
    {
      guards := guards + multiset{g};
    }

    /** The frame of a page that has just been loaded. */
    method Loaded(g: Guard)
      requires g.frame < |gauges|
      modifies this`gauges, this`guards
      ensures gauges == old(gauges)[g.frame := old(gauges[g.frame]).(usage := 1)]
      ensures guards == old(guards) + multiset{g}
    {
      gauges := gauges[g.frame := gauges[g.frame].(usage := 1)];
      Handout(g);
    }

    /** The usage count after one more access. */
    method RecordAccess(usage: nat, mode: AccessMode) returns (updated: nat)
      ensures updated == TouchedOften(usage, mode, 1)
    {
      match mode
      case Normal =>
        updated := usage + 1;
        if updated > MAX_USAGE { updated := MAX_USAGE; }
      case BulkRead =>
        updated := usage;
        if updated < 1 { updated := 1; }
    }

    /** A hit: one more pin, one more access, one more guard. */
    method PinFrame(g: Guard, mode: AccessMode)
      requires g.frame < |gauges|
      modifies this`gauges, this`guards
      ensures State() == Pin(old(State()), g, mode)
    {
      gauges := gauges[g.frame := gauges[g.frame].(pin := gauges[g.frame].pin + 1)];
      var usage := RecordAccess(gauges[g.frame].usage, mode);
      gauges := gauges[g.frame := gauges[g.frame].(usage := usage)];
      Handout(g);
    }

    // ----- one look -----

    /** Take one pin if there is none. */
    method TryReserve(index: nat) returns (reserved: bool)
      requires index < |gauges|
      modifies this`gauges
      ensures reserved <==> old(gauges[index].pin) == 0
      ensures gauges == if reserved then old(gauges)[index := old(gauges[index]).(pin := 1)] else old(gauges)
    {
      reserved := gauges[index].pin == 0;
      if reserved { gauges := gauges[index := gauges[index].(pin := 1)]; }
    }

    method LowerUsage(index: nat)
      requires index < |gauges| && gauges[index].usage > 0
      modifies this`gauges, this`chances
      ensures gauges == old(gauges)[index := old(gauges[index]).(usage := old(gauges[index].usage) - 1)]
      ensures chances == old(chances) + 1
    {
      gauges := gauges[index := gauges[index].(usage := gauges[index].usage - 1)];
      chances := chances + 1;
    }

    /** The hand has just left the frame: if pinned it is passed, if used it loses a use, otherwise it is taken. */
    method PeekAt(index: nat) returns (look: Look)
      requires Sound(State()) && index < |gauges| && hand == Next(index, |gauges|)
      modifies this`gauges, this`chances
      ensures (State(), look) == LookAt(old(State()).(hand := index))
    {
      if gauges[index].pin != 0 { return Pinned; }
      if gauges[index].usage == 0 {
        gauges := gauges[index := gauges[index].(pin := 1)];
        return Taken;
      }
      LowerUsage(index);
      look := Lowered;
    }

    /** The same with a pin held while the usage count is looked at. */
    method ReserveAt(index: nat) returns (look: Look)
      requires Sound(State()) && index < |gauges| && hand == Next(index, |gauges|)
      modifies this`gauges, this`chances
      ensures (State(), look) == LookAt(old(State()).(hand := index))
    {
      ghost var c := State().(hand := index);
      var reserved := TryReserve(index);
      if !reserved { return Pinned; }
      if gauges[index].usage == 0 { return Taken; }
      LowerUsage(index);
      Unpin(index);
      look := Lowered;
      assert State() == LookAt(c).0;
    }

    /** One look at the frame under the hand. */
    method LookUnderHand() returns (look: Look, index: nat)
      requires Sound(State())
      modifies this`gauges, this`hand, this`chances
      ensures (State(), look) == LookAt(old(State())) && index == old(hand)
    {
      index := hand;
      NextIsModulo(hand, |gauges|);
      hand := (hand + 1) % |gauges|;
      if reserving { look := ReserveAt(index); } else { look := PeekAt(index); }
    }

    /** Some guards are dropped, then comes one look at the frame under the hand. */
    method LookAtNext(drops: seq<Guard>) returns (look: Look, index: nat)
      requires Sound(State())
      modifies this`gauges, this`guards, this`hand, this`chances
      ensures (State(), look) == LookAt(DropAll(old(State()), drops)) && index == old(hand)
    {
      DropGuards(drops);
      look, index := LookUnderHand();
    }

    // ----- the scan -----

    /** A scan that stands here ends with `result`. */
    ghost predicate EndsWith(drops: Drops, sweep: nat, seen: nat, found: bool, result: (Clock, Choice))
      reads this
    {
      && Sound(State()) && sweep <= SWEEPS && seen <= |gauges|
      && Run(Scan(State(), drops, sweep, seen, found)) == result
    }

    /** The next look of a sweep: the scan ends with the victim, or goes on. */
    method GoOn(ghost sweep: nat, ghost seen: nat, found: bool, drops: Drops, ghost result: (Clock, Choice))
      returns (victim: Option<nat>, foundUnpinned: bool)
      requires EndsWith(drops, sweep, seen, found, result) && sweep < SWEEPS && seen < |gauges|
      modifies this`gauges, this`guards, this`hand, this`chances
      ensures |gauges| == old(|gauges|)
      ensures match victim
              case Some(index) => (State(), Victim(index)) == result
              case None => EndsWith(Rest(drops), sweep, seen + 1, foundUnpinned, result)
    {
      LookGoesOn(State(), drops, sweep, seen, found, result);
      var look, index := LookAtNext(First(drops));
      victim := if look.Taken? then Some(index) else None;
      foundUnpinned := found || look.Lowered?;
    }

    /** One sweep over all frames, up to the victim if there is one. */
    method Sweep(ghost sweep: nat, drops: Drops, ghost result: (Clock, Choice))
      returns (choice: Option<Choice>, rest: Drops)
      requires EndsWith(drops, sweep, 0, false, result) && sweep < SWEEPS
      modifies this`gauges, this`guards, this`hand, this`chances
      ensures match choice
              case Some(decided) => (State(), decided) == result && !decided.Exhausted?
              case None => EndsWith(rest, sweep + 1, 0, false, result)
    {
      var foundUnpinned := false;
      rest := drops;
      for seen := 0 to |gauges|
        invariant |gauges| == old(|gauges|) && EndsWith(rest, sweep, seen, foundUnpinned, result)
      {
        var victim;
        victim, foundUnpinned := GoOn(sweep, seen, foundUnpinned, rest, result);
        rest := Rest(rest);
        if victim.Some? { return Some(Victim(victim.value)), rest; }
      }
      SweepEnds(State(), rest, sweep, foundUnpinned, result);
      choice := if foundUnpinned then None else Some(AllPinned);
    }

    /** The CLOCK scan. The end of its loop is never reached. */
    method ChooseVictim(drops: Drops) returns (choice: Choice)
      requires Sound(State())
      modifies this`gauges, this`guards, this`hand, this`chances
      ensures (State(), choice) == Run(Start(old(State()), drops)) && !choice.Exhausted?
    {
      ghost var result := NeverExhausted(State(), drops);
      var rest := drops;
      for sweep := 0 to SWEEPS
        invariant EndsWith(rest, sweep, 0, false, result)
      {
        var decided;
        decided, rest := Sweep(sweep, rest, result);
        if decided.Some? { return decided.value; }
      }
      NoSeventhSweep(State(), rest, result);
      assert false;
    }
  }
}
