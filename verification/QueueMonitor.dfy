/** The command queue as a monitor with two condition variables. */
module QueueMonitor {
  // Threads push and pop under one mutex. A wake-up may be spurious, a waiting thread that has been woken must
  // take the mutex again, and any other thread may take it first.

  import opened Storage
  import opened CommandQueue

  /** `Woken`: taken off its condition variable, but not yet running. */
  datatype Progress = Arriving | Asleep | Woken

  datatype Pc =
    | Idle
    | Pushing(command: Command, progress: Progress)
    | Popping(progress: Progress)
    | Pushed(ok: bool)
    | Got(outcome: PopOutcome)

  datatype State = State(core: Core, threads: seq<Pc>, accepted: multiset<Command>, popped: multiset<Command>)

  datatype Action =
    | StartPush(t: nat, command: Command)
    | StartPop(t: nat)
    | Run(t: nat, next: Command, woken: nat)
    | Spurious(t: nat)
    | Shutdown

  predicate Consumer(pc: Pc, progress: Progress) {
    pc.Popping? && pc.progress == progress
  }

  predicate Producer(pc: Pc, progress: Progress) {
    pc.Pushing? && pc.progress == progress
  }

  predicate Sleeps(pc: Pc) {
    Consumer(pc, Asleep) || Producer(pc, Asleep)
  }

  predicate Runs(pc: Pc) {
    (pc.Pushing? || pc.Popping?) && !Sleeps(pc)
  }

  function Wake(pc: Pc): Pc {
    if Sleeps(pc) then pc.(progress := Woken) else pc
  }

  function Goto(s: State, t: nat, pc: Pc): State
    requires t < |s.threads|
  {
    s.(threads := s.threads[t := pc])
  }

  /** Wake thread `u` if it sleeps; with no thread asleep on the condition variable nothing happens. */
  function Notify(s: State, u: nat): State {
    if u < |s.threads| then Goto(s, u, Wake(s.threads[u])) else s
  }

  function NotifyAll(s: State): State {
    s.(threads := seq(|s.threads|, i requires 0 <= i < |s.threads| => Wake(s.threads[i])))
  }

  /** `woken` is a consumer asleep on not_empty, unless there is none. */
  predicate PicksConsumer(threads: seq<Pc>, woken: nat) {
    if woken < |threads| then Consumer(threads[woken], Asleep)
    else forall t :: 0 <= t < |threads| ==> !Consumer(threads[t], Asleep)
  }

  predicate PicksProducer(threads: seq<Pc>, woken: nat) {
    if woken < |threads| then Producer(threads[woken], Asleep)
    else forall t :: 0 <= t < |threads| ==> !Producer(threads[t], Asleep)
  }

  predicate Enabled(s: State, a: Action) {
    match a
    case StartPush(t, _) => t < |s.threads| && !Runs(s.threads[t]) && !Sleeps(s.threads[t])
    case StartPop(t) => t < |s.threads| && !Runs(s.threads[t]) && !Sleeps(s.threads[t])
    case Run(t, next, woken) =>
      && t < |s.threads| && Runs(s.threads[t])
      && (if s.threads[t].Pushing? then PicksConsumer(s.threads, woken) else PicksProducer(s.threads, woken))
      && (s.threads[t].Popping? && s.core.heap != multiset{} ==> Greatest(s.core.heap, next))
    case Spurious(t) => t < |s.threads| && Sleeps(s.threads[t])
    case Shutdown => true
  }

  function Apply(s: State, a: Action): State
    requires Enabled(s, a)
  {
    match a
    case StartPush(t, c) => Goto(s, t, Pushing(c, Arriving))
    case StartPop(t) => Goto(s, t, Popping(Arriving))
    case Run(t, next, woken) =>
      if s.threads[t].Pushing? then PushStep(s, t, woken) else PopStep(s, t, next, woken)
    case Spurious(t) => Notify(s, t)
    case Shutdown => NotifyAll(s.(core := s.core.(shutdown := true)))
  }

  function PushStep(s: State, t: nat, woken: nat): State
    requires t < |s.threads| && s.threads[t].Pushing?
  {
    var c := s.threads[t].command;
    var (core, outcome) := PushOnce(s.core, c);
    match outcome
    case Accepted =>
      Notify(Goto(s.(core := core, accepted := s.accepted + multiset{c}), t, Pushed(true)), woken)
    case Full => Goto(s, t, Pushing(c, Asleep))
    case PushRefused => Goto(s, t, Pushed(false))
  }

  function PopStep(s: State, t: nat, next: Command, woken: nat): State
    requires t < |s.threads| && s.threads[t].Popping?
  {
    var (core, outcome) := PopOnce(s.core, next);
    match outcome
    case Popped(c) => Notify(Goto(s.(core := core, popped := s.popped + multiset{c}), t, Got(outcome)), woken)
    case Nothing => Goto(s, t, Popping(Asleep))
    case PopRefused => Goto(s, t, Got(outcome))
  }

  // ----- counting threads -----

  datatype Role = ConsumerRole(progress: Progress) | ProducerRole(progress: Progress)

  predicate Plays(pc: Pc, r: Role) {
    match r case ConsumerRole(p) => Consumer(pc, p) case ProducerRole(p) => Producer(pc, p)
  }

  function Count(threads: seq<Pc>, r: Role): nat {
    if threads == [] then 0
    else Count(threads[..|threads| - 1], r) + if Plays(threads[|threads| - 1], r) then 1 else 0
  }

  lemma {:induction false} CountAfter(threads: seq<Pc>, t: nat, pc: Pc, r: Role)
    requires t < |threads|
    ensures Count(threads[t := pc], r)
         == Count(threads, r) - (if Plays(threads[t], r) then 1 else 0) + (if Plays(pc, r) then 1 else 0)
  {
    var n := |threads| - 1;
    if t == n { assert threads[t := pc][..n] == threads[..n]; }
    else {
      assert threads[t := pc][..n] == threads[..n][t := pc];
      CountAfter(threads[..n], t, pc, r);
    }
  }

  lemma {:induction false} CountZero(threads: seq<Pc>, r: Role)
    ensures Count(threads, r) == 0 <==> forall t :: 0 <= t < |threads| ==> !Plays(threads[t], r)
  {
    if threads != [] {
      var n := |threads| - 1;
      CountZero(threads[..n], r);
      assert forall t :: 0 <= t < n ==> threads[..n][t] == threads[t];
    }
  }

  // ----- the invariant -----

  function Free(q: Core): int {
    q.capacity - |q.heap|
  }

  /** While a consumer sleeps, the queued commands are spoken for by consumers already woken. */
  predicate ConsumersServed(s: State) {
    Count(s.threads, ConsumerRole(Asleep)) > 0 ==>
      !s.core.shutdown && |s.core.heap| <= Count(s.threads, ConsumerRole(Woken))
  }

  /** While a producer sleeps, the free slots are spoken for by producers already woken. */
  predicate ProducersServed(s: State) {
    Count(s.threads, ProducerRole(Asleep)) > 0 ==>
      !s.core.shutdown && Free(s.core) <= Count(s.threads, ProducerRole(Woken))
  }

  /** Every accepted command is in the queue or has been popped, once. */
  predicate Conserved(s: State) {
    && s.accepted == s.popped + s.core.heap
    && |s.core.heap| <= s.core.capacity
    && s.core.pushed - s.core.dispatched == |s.core.heap|
    && s.core.pushed == |s.accepted|
  }

  predicate Inv(s: State) {
    ConsumersServed(s) && ProducersServed(s) && Conserved(s)
  }

  predicate Init(s: State) {
    && s.core.heap == s.accepted == s.popped == multiset{} && s.core.pushed == s.core.dispatched == 0
    && forall t :: 0 <= t < |s.threads| ==> s.threads[t] == Idle
  }

  // ----- every step keeps it -----

  function One(pc: Pc, r: Role): nat {
    if Plays(pc, r) then 1 else 0
  }

  lemma Recount(threads: seq<Pc>, t: nat, pc: Pc)
    requires t < |threads|
    ensures forall r :: Count(threads[t := pc], r) == Count(threads, r) - One(threads[t], r) + One(pc, r)
  {
    forall r ensures Count(threads[t := pc], r) == Count(threads, r) - One(threads[t], r) + One(pc, r) {
      CountAfter(threads, t, pc, r);
    }
  }

  lemma KeepPush(s: State, t: nat, woken: nat)
    requires Inv(s) && t < |s.threads| && s.threads[t].Pushing? && Runs(s.threads[t])
    requires PicksConsumer(s.threads, woken)
    ensures Inv(PushStep(s, t, woken))
  {
    var s', threads := PushStep(s, t, woken), s.threads;
    match PushOnce(s.core, threads[t].command).1
    case Accepted =>
      Recount(threads, t, Pushed(true));
      var moved := threads[t := Pushed(true)];
      if woken < |threads| {
        Recount(moved, woken, Popping(Woken));
        assert s'.threads == moved[woken := Popping(Woken)];
      } else {
        CountZero(threads, ConsumerRole(Asleep));
      }
    case Full => Recount(threads, t, threads[t].(progress := Asleep));
    case PushRefused => Recount(threads, t, Pushed(false));
  }

  lemma KeepPop(s: State, t: nat, next: Command, woken: nat)
    requires Inv(s) && t < |s.threads| && s.threads[t].Popping? && Runs(s.threads[t])
    requires PicksProducer(s.threads, woken)
    requires s.core.heap != multiset{} ==> next in s.core.heap
    ensures Inv(PopStep(s, t, next, woken))
  {
    var s', threads := PopStep(s, t, next, woken), s.threads;
    match PopOnce(s.core, next).1
    case Popped(c) =>
      var got := Got(Popped(c));
      Recount(threads, t, got);
      var moved := threads[t := got];
      assert |s'.core.heap| == |s.core.heap| - 1;
      if woken < |threads| {
        Recount(moved, woken, threads[woken].(progress := Woken));
        assert s'.threads == moved[woken := threads[woken].(progress := Woken)];
      } else {
        CountZero(threads, ProducerRole(Asleep));
      }
    case Nothing => Recount(threads, t, Popping(Asleep));
    case PopRefused => Recount(threads, t, Got(PopRefused));
  }

  lemma KeepStep(s: State, a: Action)
    requires Inv(s) && Enabled(s, a)
    ensures Inv(Apply(s, a))
  {
    match a
    case StartPush(t, c) => Recount(s.threads, t, Pushing(c, Arriving));
    case StartPop(t) => Recount(s.threads, t, Popping(Arriving));
    case Run(t, next, woken) => if s.threads[t].Pushing? { KeepPush(s, t, woken); } else { KeepPop(s, t, next, woken); }
    case Spurious(t) => Recount(s.threads, t, Wake(s.threads[t]));
    case Shutdown =>
      CountZero(Apply(s, a).threads, ConsumerRole(Asleep));
      CountZero(Apply(s, a).threads, ProducerRole(Asleep));
  }

  lemma InitInv(s: State)
    requires Init(s)
    ensures Inv(s)
  {
    CountZero(s.threads, ConsumerRole(Asleep));
    CountZero(s.threads, ProducerRole(Asleep));
  }

  predicate Leads(s: State, actions: seq<Action>, last: State)
    decreases |actions|
  {
    if actions == [] then s == last
    else Enabled(s, actions[0]) && Leads(Apply(s, actions[0]), actions[1..], last)
  }

  lemma {:induction false} InvAlong(s: State, actions: seq<Action>, last: State)
    requires Inv(s) && Leads(s, actions, last)
    ensures Inv(last)
    decreases |actions|
  {
    if actions != [] {
      KeepStep(s, actions[0]);
      InvAlong(Apply(s, actions[0]), actions[1..], last);
    }
  }

  /** Main result for the queue: over every run, no wake-up is lost and no command is lost or handed out twice. */
  lemma Reachable(s: State, actions: seq<Action>, last: State)
    requires Init(s) && Leads(s, actions, last)
    ensures Inv(last)
  {
    InitInv(s);
    InvAlong(s, actions, last);
  }

  // ----- what the invariant means -----

  lemma SomeoneCounts(threads: seq<Pc>, r: Role) returns (t: nat)
    requires Count(threads, r) > 0
    ensures t < |threads| && Plays(threads[t], r)
  {
    CountZero(threads, r);
    t :| t < |threads| && Plays(threads[t], r);
  }

  /** If a thread sleeps although the queue has what it waits for, another one has been woken and will run. */
  lemma SleepersAreServed(s: State, t: nat) returns (u: nat)
    requires Inv(s) && t < |s.threads|
    requires (Consumer(s.threads[t], Asleep) && s.core.heap != multiset{})
          || (Producer(s.threads[t], Asleep) && |s.core.heap| < s.core.capacity)
    ensures !s.core.shutdown && u < |s.threads| && Runs(s.threads[u])
    ensures s.threads[u].Popping? <==> s.threads[t].Popping?
  {
    if s.threads[t].Popping? {
      CountZero(s.threads, ConsumerRole(Asleep));
      u := SomeoneCounts(s.threads, ConsumerRole(Woken));
    } else {
      CountZero(s.threads, ProducerRole(Asleep));
      u := SomeoneCounts(s.threads, ProducerRole(Woken));
    }
  }

  /** After a shutdown nobody sleeps. */
  lemma NobodySleepsAfterShutdown(s: State, t: nat)
    requires Inv(s) && s.core.shutdown && t < |s.threads|
    ensures !Sleeps(s.threads[t])
  {
    CountZero(s.threads, ConsumerRole(Asleep));
    CountZero(s.threads, ProducerRole(Asleep));
  }

  /** A pop hands out a command that none comes before; it fails only once the queue is shut down and empty. */
  lemma PopIsGreatest(s: State, t: nat, next: Command, woken: nat)
    requires Inv(s) && Enabled(s, Run(t, next, woken)) && s.threads[t].Popping?
    ensures var s' := Apply(s, Run(t, next, woken));
            match s'.threads[t]
            case Got(Popped(c)) => Greatest(s.core.heap, c) && s'.popped == s.popped + multiset{c}
            case Got(PopRefused) => s.core.shutdown && s.core.heap == multiset{} && s.popped == s.accepted
            case Popping(Asleep) => !s.core.shutdown && s.core.heap == multiset{}
            case _ => false
  {
  }

  /** Nothing is accepted after a shutdown: a queue that is shut down and empty has handed out all it ever accepted. */
  lemma {:induction false} DrainedStaysDrained(s: State, actions: seq<Action>, last: State)
    requires Inv(s) && s.core.shutdown && Leads(s, actions, last)
    ensures last.core.shutdown && last.accepted == s.accepted
    ensures s.core.heap == multiset{} ==> last.popped == last.accepted
    decreases |actions|
  {
    if actions != [] {
      KeepStep(s, actions[0]);
      DrainedStaysDrained(Apply(s, actions[0]), actions[1..], last);
    }
  }

  // ----- a shutdown takes effect -----

  lemma {:induction false} LeadsInTwo(s: State, actions: seq<Action>, last: State, k: nat) returns (mid: State)
    requires Leads(s, actions, last) && k <= |actions|
    ensures Leads(s, actions[..k], mid) && Leads(mid, actions[k..], last)
    decreases k
  {
    if k == 0 {
      mid := s;
      assert actions[0..] == actions;
    } else {
      mid := LeadsInTwo(Apply(s, actions[0]), actions[1..], last, k - 1);
      assert actions[..k][1..] == actions[1..][..k - 1];
      assert actions[k..] == actions[1..][k - 1..];
    }
  }

  /** With the queue shut down a push that runs is refused, and so is a pop that runs on an empty queue. */
  ghost predicate Refuses(s: State, a: Action)
    requires Enabled(s, a)
  {
    a.Run? ==>
      && (s.threads[a.t].Pushing? ==> Apply(s, a).threads[a.t] == Pushed(false))
      && (s.threads[a.t].Popping? && s.core.heap == multiset{} ==> Apply(s, a).threads[a.t] == Got(PopRefused))
  }

  /**
  Over every run: from the action Shutdown on the queue is shut down and nobody sleeps, nothing
  more is accepted, every push that runs is refused, and every pop that runs on an empty queue is.
  */
  lemma ShutdownTakesEffect(s: State, actions: seq<Action>, last: State, k: nat) returns (mid: State)
    requires Init(s) && Leads(s, actions, last) && k < |actions| && actions[k] == Shutdown
    ensures Leads(s, actions[..k], mid) && Leads(Apply(mid, Shutdown), actions[k + 1..], last)
    ensures last.core.shutdown && last.accepted == mid.accepted
    ensures forall t :: 0 <= t < |last.threads| ==> !Sleeps(last.threads[t])
    ensures forall a :: Enabled(last, a) ==> Refuses(last, a)
  {
    mid := LeadsInTwo(s, actions, last, k);
    assert actions[k..][0] == Shutdown && actions[k..][1..] == actions[k + 1..];
    Reachable(s, actions[..k], mid);
    KeepStep(mid, Shutdown);
    DrainedStaysDrained(Apply(mid, Shutdown), actions[k + 1..], last);
    Reachable(s, actions, last);
    forall t | 0 <= t < |last.threads| ensures !Sleeps(last.threads[t]) { NobodySleepsAfterShutdown(last, t); }
  }

  /** A spurious wake-up makes a sleeper runnable with its errand unchanged, and touches nothing else. */
  lemma SpuriousWakes(s: State, t: nat)
    requires Enabled(s, Spurious(t))
    ensures Runs(Apply(s, Spurious(t)).threads[t])
    ensures Apply(s, Spurious(t)) == s.(threads := s.threads[t := s.threads[t].(progress := Woken)])
  {
  }

  // ----- what becomes of a push -----

  /** One pass of a push: the command is stored, or refused, or there is no room and the producer sleeps. */
  lemma PushIsStored(s: State, t: nat, next: Command, woken: nat)
    requires Inv(s) && Enabled(s, Run(t, next, woken)) && s.threads[t].Pushing?
    ensures var s', c := Apply(s, Run(t, next, woken)), s.threads[t].command;
            match s'.threads[t]
            case Pushed(ok) =>
              && (ok <==> !s.core.shutdown)
              && (ok ==> |s.core.heap| < s.core.capacity)
              && s'.core.heap == s.core.heap + (if ok then multiset{c} else multiset{})
              && s'.accepted == s.accepted + (if ok then multiset{c} else multiset{})
            case Pushing(d, Asleep) =>
              d == c && !s.core.shutdown && |s.core.heap| == s.core.capacity && s'.core == s.core
            case _ => false
  {
  }

  /** Thread `t` starts no new push or pop. */
  predicate StartsNothing(actions: seq<Action>, t: nat) {
    forall k :: 0 <= k < |actions| && (actions[k].StartPush? || actions[k].StartPop?) ==> actions[k].t != t
  }

  /** A push of `c` is still under way, or has been decided. */
  predicate StillPushes(pc: Pc, c: Command) {
    (pc.Pushing? && pc.command == c) || pc.Pushed?
  }

  ghost predicate Pushes(s: State, t: nat, c: Command) {
    t < |s.threads| && s.threads[t].Pushing? && s.threads[t].command == c
  }

  /** Nothing has happened to the push of thread `t` but that it has been woken up. */
  ghost predicate PushKept(s: State, r: State, t: nat, c: Command)
    requires t < |s.threads|
  {
    && |r.threads| == |s.threads| && StillPushes(r.threads[t], c)
    && (s.threads[t].Pushed? ==> r.threads[t] == s.threads[t])
  }

  lemma PushStepKeeps(s: State, u: nat, woken: nat, t: nat, c: Command)
    requires u < |s.threads| && s.threads[u].Pushing? && t < |s.threads| && StillPushes(s.threads[t], c)
    ensures PushKept(s, PushStep(s, u, woken), t, c)
    ensures u != t && Pushes(s, t, c) ==> Pushes(PushStep(s, u, woken), t, c)
  {
  }

  lemma PopStepKeeps(s: State, u: nat, next: Command, woken: nat, t: nat, c: Command)
    requires u < |s.threads| && s.threads[u].Popping? && t < |s.threads| && StillPushes(s.threads[t], c)
    ensures PushKept(s, PopStep(s, u, next, woken), t, c)
    ensures u != t && Pushes(s, t, c) ==> Pushes(PopStep(s, u, next, woken), t, c)
  {
  }

  lemma PushStays(s: State, a: Action, t: nat, c: Command)
    requires Enabled(s, a) && t < |s.threads| && StillPushes(s.threads[t], c)
    requires a.StartPush? || a.StartPop? ==> a.t != t
    ensures PushKept(s, Apply(s, a), t, c)
  {
    match a
    case StartPush(_, _) =>
    case StartPop(_) =>
    case Run(u, next, woken) =>
      if s.threads[u].Pushing? { PushStepKeeps(s, u, woken, t, c); } else { PopStepKeeps(s, u, next, woken, t, c); }
    case Spurious(_) =>
    case Shutdown =>
  }

  /** In state `mid` thread `t` runs, and its push of `c` is decided; `last` still has its reply. */
  ghost predicate DecidedBy(mid: State, a: Action, last: State, t: nat, c: Command) {
    && Inv(mid) && Pushes(mid, t, c) && a.Run? && a.t == t && Enabled(mid, a) && t < |last.threads|
    && last.threads[t] == Apply(mid, a).threads[t] == Pushed(!mid.core.shutdown)
    && Apply(mid, a).accepted == mid.accepted + (if mid.core.shutdown then multiset{} else multiset{c})
  }

  lemma OnlyItsOwnRun(s: State, a: Action, t: nat, c: Command)
    requires Pushes(s, t, c) && Enabled(s, a) && !(a.Run? && a.t == t)
    ensures Pushes(Apply(s, a), t, c)
  {
    match a
    case StartPush(_, _) =>
    case StartPop(_) =>
    case Run(u, next, woken) =>
      if s.threads[u].Pushing? { PushStepKeeps(s, u, woken, t, c); } else { PopStepKeeps(s, u, next, woken, t, c); }
    case Spurious(_) =>
    case Shutdown =>
  }

  lemma DecidedHere(s: State, a: Action, last: State, t: nat, c: Command)
    requires Inv(s) && Pushes(s, t, c) && Enabled(s, a) && !Pushes(Apply(s, a), t, c) && t < |last.threads|
    requires last.threads[t] == Apply(s, a).threads[t]
    ensures DecidedBy(s, a, last, t, c)
  {
    if !(a.Run? && a.t == t) { OnlyItsOwnRun(s, a, t, c); }
    PushIsStored(s, t, a.next, a.woken);
  }

  lemma {:induction false} PushGoesOn(s: State, actions: seq<Action>, last: State, t: nat, c: Command)
    returns (k: nat, mid: State)
    requires Inv(s) && Leads(s, actions, last) && StartsNothing(actions, t) && Pushes(s, t, c)
    ensures k <= |actions| && Leads(s, actions[..k], mid)
    ensures if k < |actions| then DecidedBy(mid, actions[k], last, t, c) else mid == last && Pushes(last, t, c)
    decreases |actions|
  {
    if actions == [] { return 0, s; }
    var a, next := actions[0], Apply(s, actions[0]);
    PushStays(s, a, t, c);
    forall i | 0 <= i < |actions[1..]| ensures actions[1..][i] == actions[i + 1] {}
    if Pushes(next, t, c) {
      KeepStep(s, a);
      k, mid := PushGoesOn(next, actions[1..], last, t, c);
      k := k + 1;
      assert actions[..k][1..] == actions[1..][..k - 1];
    } else {
      ReplyStays(next, actions[1..], last, t, c);
      DecidedHere(s, a, last, t, c);
      k, mid := 0, s;
    }
  }

  /**
  Over every run: from the start of a push a producer goes on pushing the command that it was
  given, through every sleep and wake-up, until the queue has stored that command or refused it
  for being shut down.
  */
  lemma PushIsDecided(s: State, t: nat, c: Command, actions: seq<Action>, last: State)
    returns (k: nat, mid: State)
    requires Inv(s) && Enabled(s, StartPush(t, c))
    requires Leads(Apply(s, StartPush(t, c)), actions, last) && StartsNothing(actions, t)
    ensures k <= |actions| && Leads(Apply(s, StartPush(t, c)), actions[..k], mid)
    ensures if k < |actions| then DecidedBy(mid, actions[k], last, t, c) else mid == last && Pushes(last, t, c)
  {
    KeepStep(s, StartPush(t, c));
    k, mid := PushGoesOn(Apply(s, StartPush(t, c)), actions, last, t, c);
  }

  lemma {:induction false} ReplyStays(s: State, actions: seq<Action>, last: State, t: nat, c: Command)
    requires Leads(s, actions, last) && StartsNothing(actions, t) && t < |s.threads| && s.threads[t].Pushed?
    ensures t < |last.threads| && last.threads[t] == s.threads[t]
    decreases |actions|
  {
    if actions != [] {
      PushStays(s, actions[0], t, c);
      forall i | 0 <= i < |actions[1..]| ensures actions[1..][i] == actions[i + 1] {}
      ReplyStays(Apply(s, actions[0]), actions[1..], last, t, c);
    }
  }

  // ----- statistics -----

  /** The action makes the queue accept a safe-mode command. */
  ghost predicate AcceptsSafeMode(s: State, a: Action)
    requires Enabled(s, a)
  {
    && a.Run? && s.threads[a.t].Pushing? && s.threads[a.t].command.kind.SafeMode?
    && Apply(s, a).threads[a.t] == Pushed(true)
  }

  /** The safe-mode commands among those that a run accepts. */
  ghost function SafeModesAccepted(s: State, actions: seq<Action>): nat
    decreases |actions|
  {
    if actions == [] || !Enabled(s, actions[0]) then 0
    else (if AcceptsSafeMode(s, actions[0]) then 1 else 0) + SafeModesAccepted(Apply(s, actions[0]), actions[1..])
  }

  lemma SafeModeStep(s: State, a: Action)
    requires Enabled(s, a)
    ensures Apply(s, a).core.safeModes == s.core.safeModes + if AcceptsSafeMode(s, a) then 1 else 0
  {
  }

  /** Over every run the counters tell what was accepted, what was popped, and how much of it was safe mode. */
  lemma {:induction false} CountersAgree(s: State, actions: seq<Action>, last: State)
    requires Inv(s) && Leads(s, actions, last)
    ensures last.core.safeModes == s.core.safeModes + SafeModesAccepted(s, actions)
    ensures last.core.pushed == |last.accepted| && last.core.dispatched == |last.popped|
    decreases |actions|
  {
    if actions != [] {
      SafeModeStep(s, actions[0]);
      KeepStep(s, actions[0]);
      CountersAgree(Apply(s, actions[0]), actions[1..], last);
    }
  }
}
