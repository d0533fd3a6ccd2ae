/** Commands, the order in which they are handed out, and a bounded queue of them. */
module CommandQueue {
  import opened Storage

  datatype Kind = SafeMode | AbortPass | Repoint(azimuth: real, elevation: real) | StatusRequest | Housekeeping

  datatype Command = Command(priority: nat, kind: Kind, issuedAt: nat)

  datatype Ordering = Less | Equal | Greater

  function CompareNat(a: nat, b: nat): Ordering {
    if a < b then Less else if a == b then Equal else Greater
  }

  /** Higher priority first; within a priority the older command. */
  function Compare(a: Command, b: Command): Ordering {
    match CompareNat(a.priority, b.priority)
    case Equal => CompareNat(b.issuedAt, a.issuedAt)
    case decided => decided
  }

  predicate Same(a: Command, b: Command) {
    a.priority == b.priority && a.issuedAt == b.issuedAt
  }

  function Issue(kind: Kind, now: nat): Command {
    Command(match kind
            case SafeMode => 255
            case AbortPass => 150
            case Repoint(_, _) => 100
            case StatusRequest => 50
            case Housekeeping => 10, kind, now)
  }

  function Urgency(kind: Kind): nat {
    match kind
    case SafeMode => 4
    case AbortPass => 3
    case Repoint(_, _) => 2
    case StatusRequest => 1
    case Housekeeping => 0
  }

  /** The comparison is a total order on commands up to equality, and equality is what it says. */
  lemma CompareIsTotalOrder(a: Command, b: Command, c: Command)
    ensures Compare(a, b) == Equal <==> Same(a, b)
    ensures Compare(a, b) == Less <==> Compare(b, a) == Greater
    ensures Compare(a, b) != Less && Compare(b, c) != Less ==> Compare(a, c) != Less
    ensures Compare(a, b) == Greater && Compare(b, c) != Less ==> Compare(a, c) == Greater
  {
  }

  /** A command keeps its kind and time, and issued ones are ordered by urgency of the kind first, then by age. */
  lemma IssuedOrder(k: Kind, s: nat, l: Kind, t: nat)
    ensures Issue(k, s).kind == k && Issue(k, s).issuedAt == s && Issue(k, s).priority < 256
    ensures Compare(Issue(k, s), Issue(l, t)) == Greater
            <==> Urgency(k) > Urgency(l) || (Urgency(k) == Urgency(l) && s < t)
  {
  }

  // ----- the queue -----

  predicate Greatest(heap: multiset<Command>, c: Command) {
    c in heap && forall d :: d in heap ==> Compare(c, d) != Less
  }

  lemma {:induction false} GreatestExists(heap: multiset<Command>) returns (c: Command)
    requires heap != multiset{}
    ensures Greatest(heap, c)
    decreases |heap|
  {
    c :| c in heap;
    var rest := heap - multiset{c};
    if rest != multiset{} {
      var d := GreatestExists(rest);
      assert heap == rest + multiset{c};
      CompareIsTotalOrder(c, d, d);
      if Compare(c, d) == Less {
        forall e | e in heap ensures Compare(d, e) != Less { CompareIsTotalOrder(d, c, e); }
        c := d;
      } else {
        forall e | e in heap ensures Compare(c, e) != Less { CompareIsTotalOrder(c, d, e); }
      }
    } else {
      assert heap == rest + multiset{c};
      CompareIsTotalOrder(c, c, c);
    }
  }

  datatype Core = Core(
    heap: multiset<Command>, capacity: nat, shutdown: bool, pushed: nat, dispatched: nat, safeModes: nat)

  datatype PushOutcome = Accepted | Full | PushRefused

  datatype PopOutcome = Popped(command: Command) | Nothing | PopRefused

  /** One pass through the loop of a push, under the lock. */
  function PushOnce(q: Core, c: Command): (Core, PushOutcome) {
    if q.shutdown then (q, PushRefused)
    else if |q.heap| < q.capacity then
      (q.(heap := q.heap + multiset{c}, pushed := q.pushed + 1,
          safeModes := q.safeModes + if c.kind.SafeMode? then 1 else 0), Accepted)
    else (q, Full)
  }

  /** One pass through the loop of a pop, under the lock; `next` is the command that comes first. */
  function PopOnce(q: Core, next: Command): (Core, PopOutcome) {
    if q.heap != multiset{} then
      (q.(heap := q.heap - multiset{next}, dispatched := q.dispatched + 1), Popped(next))
    else if q.shutdown then (q, PopRefused)
    else (q, Nothing)
  }

  class Queue {
    var heap: multiset<Command>
    const capacity: nat
    var shutdown: bool
    var pushed: nat
    var dispatched: nat
    var safeModes: nat

    function State(): Core
      reads this
    {
      Core(heap, capacity, shutdown, pushed, dispatched, safeModes)
    }

    predicate Valid()
      reads this
    {
      |heap| <= capacity && pushed - dispatched == |heap|
    }

    constructor (capacity: nat)
      ensures Valid() && State() == Core(multiset{}, capacity, false, 0, 0, 0)
    {
      this.capacity := capacity;
      heap, shutdown, pushed, dispatched, safeModes := multiset{}, false, 0, 0, 0;
    }

    method TryPush(c: Command) returns (r: PushOutcome)
      requires Valid()
      modifies this
      ensures Valid() && (State(), r) == PushOnce(old(State()), c)
      ensures r.Full? <==> !shutdown && |old(heap)| == capacity
    {
      if shutdown { return PushRefused; }
      if |heap| < capacity {
        heap := heap + multiset{c};
        pushed := pushed + 1;
        if c.kind.SafeMode? { safeModes := safeModes + 1; }
        return Accepted;
      }
      r := Full;
    }

    method TryPop() returns (r: PopOutcome)
      requires Valid()
      modifies this
      ensures Valid()
      ensures old(heap) == multiset{} ==> State() == old(State()) && r == if shutdown then PopRefused else Nothing
      ensures old(heap) != multiset{} ==> r.Popped? && Greatest(old(heap), r.command)
                                          && (State(), r) == PopOnce(old(State()), r.command)
    {
      if heap != multiset{} {
        ghost var top := GreatestExists(heap);
        var c :| c in heap && Greatest(heap, c);
        heap := heap - multiset{c};
        dispatched := dispatched + 1;
        return Popped(c);
      }
      r := if shutdown then PopRefused else Nothing;
    }

    method Shutdown()
      requires Valid()
      modifies this`shutdown
      ensures Valid() && State() == old(State()).(shutdown := true)
    {
      shutdown := true;
    }
  }
}
