/** The background purge task and its wake-ups, as a transition system. */
module PurgeTask {
  // A setter or a shutdown notifies after it has left the lock, so a notification may still be owed when others
  // run. `lastSet` remembers the last entry set for every key; no step looks at it.

  import opened Storage
  import opened TtlStore

  datatype Task =
    | Heading                  // about to look at the shutdown flag of its loop
    | Entering                 // about to look at it again inside the purge
    | Purging                  // about to take the lock
    | Sleeping(until: nat)
    | Waiting
    | Done

  datatype State = State(
    now: nat,
    entries: Entries,
    index: Index,
    shutdown: bool,
    permit: bool,
    owedBySetters: nat,
    owedByStoppers: nat,
    task: Task,
    lastSet: Entries)

  datatype Action =
    | Tick(to: nat)
    | SetEntry(key: Key, entry: Entry)
    | NotifySet
    | Shutdown
    | NotifyShutdown
    | RunTask(next: Option<nat>)
    | WakeUp
    | TimeOut

  ghost predicate Enabled(s: State, a: Action) {
    match a
    case Tick(to) => to >= s.now
    case SetEntry(_, e) => e.expiresAt.Some? ==> e.expiresAt.value >= s.now
    case NotifySet => s.owedBySetters > 0
    case Shutdown => true
    case NotifyShutdown => s.owedByStoppers > 0
    case RunTask(next) =>
      s.task.Heading? || s.task.Entering? || (s.task.Purging? && IsNext(Later(s.index, s.now), next))
    case WakeUp => (s.task.Sleeping? || s.task.Waiting?) && s.permit
    case TimeOut => s.task.Sleeping? && s.now >= s.task.until
  }

  function Apply(s: State, a: Action): State {
    match a
    case Tick(to) => s.(now := to)
    case SetEntry(k, e) =>
      s.(entries := s.entries[k := e], index := Reindexed(s.entries, s.index, k, e.expiresAt),
         owedBySetters := s.owedBySetters + if Earliest(s.index, e.expiresAt) then 1 else 0,
         lastSet := s.lastSet[k := e])
    case NotifySet => s.(permit := true, owedBySetters := if s.owedBySetters > 0 then s.owedBySetters - 1 else 0)
    case Shutdown => s.(shutdown := true, owedByStoppers := s.owedByStoppers + 1)
    case NotifyShutdown =>
      s.(permit := true, owedByStoppers := if s.owedByStoppers > 0 then s.owedByStoppers - 1 else 0)
    case RunTask(next) => TaskStep(s, next)
    case WakeUp => s.(permit := false, task := Heading)
    case TimeOut => s.(task := Heading)
  }

  /** The purger's own code between two waits; `next` is what its purge finds first. */
  function TaskStep(s: State, next: Option<nat>): State {
    match s.task
    case Heading => s.(task := if s.shutdown then Done else Entering)
    case Entering => s.(task := if s.shutdown then Waiting else Purging)
    case Purging =>
      s.(entries := Live(s.entries, s.now), index := Later(s.index, s.now),
         task := if next.Some? then Sleeping(next.value) else Waiting)
    case _ => s
  }

  // ----- the invariant -----

  /** A wake-up is stored, or somebody is about to store one. */
  predicate WakeUpComing(s: State) {
    s.permit || s.owedBySetters > 0 || s.owedByStoppers > 0
  }

  /** While the purger sleeps, nothing in the index comes before the end of its sleep, or a wake-up is coming. */
  ghost predicate NeverOversleeps(s: State) {
    match s.task
    case Sleeping(until) => WakeUpComing(s) || forall x :: x in s.index ==> x.0 >= until
    case Waiting => WakeUpComing(s) || (s.index == {} && !s.shutdown)
    case _ => true
  }

  /** After a shutdown the purger is done, or about to see the flag, or will be woken up to see it. */
  predicate ShutdownIsSeen(s: State) {
    s.shutdown ==> s.permit || s.owedByStoppers > 0 || s.task.Heading? || s.task.Done?
  }

  /** What is stored is what was last set; only expired entries are missing. */
  ghost predicate NothingLost(s: State) {
    && (forall k :: k in s.entries ==> k in s.lastSet && s.entries[k] == s.lastSet[k])
    && (forall k :: k in s.lastSet && k !in s.entries ==> Expired(s.lastSet[k], s.now))
  }

  ghost predicate Inv(s: State) {
    && Agrees(s.entries, s.index) && NeverOversleeps(s) && ShutdownIsSeen(s) && NothingLost(s)
    && (s.task.Done? ==> s.shutdown)
  }

  ghost predicate Init(s: State) {
    && s.entries == map[] && s.index == {} && s.lastSet == map[]
    && !s.shutdown && !s.permit && s.owedBySetters == s.owedByStoppers == 0 && s.task == Heading
  }

  lemma KeepInv(s: State, a: Action)
    requires Inv(s) && Enabled(s, a)
    ensures Inv(Apply(s, a))
  {
    match a
    case SetEntry(k, e) => SetKeepsIndex(s.entries, s.index, k, e);
    case RunTask(next) => LiveKeepsIndex(s.entries, s.index, s.now);
    case _ =>
  }

  ghost predicate Leads(s: State, actions: seq<Action>, last: State)
    decreases |actions|
  {
    if actions == [] then s == last
    else Enabled(s, actions[0]) && Leads(Apply(s, actions[0]), actions[1..], last)
  }

  lemma {:induction false} InvAlong(s: State, actions: seq<Action>, last: State)
    requires Inv(s) && Leads(s, actions, last)
    ensures Inv(last)
    decreases |actions|
  {
    if actions != [] {
      KeepInv(s, actions[0]);
      InvAlong(Apply(s, actions[0]), actions[1..], last);
    }
  }

  /**
  Main result for the purge task, over every run: the index agrees with the entries, the purger
  never sleeps through an expiry, a shutdown is never missed, and no live entry is lost.
  */
  lemma Reachable(s: State, actions: seq<Action>, last: State)
    requires Init(s) && Leads(s, actions, last)
    ensures Inv(last)
  {
    InvAlong(s, actions, last);
  }

  // ----- what the invariant means -----

  /** The purger can take a step of its own. */
  predicate TaskRuns(s: State) {
    match s.task
    case Sleeping(until) => s.permit || s.now >= until
    case Waiting => s.permit
    case Done => false
    case _ => true
  }

  /** When an entry is overdue, the purger runs, or a notification that wakes it is owed, or it is done. */
  lemma OverdueIsNoticed(s: State, x: (nat, Key))
    requires Inv(s) && x in s.index && x.0 <= s.now
    ensures TaskRuns(s) || s.owedBySetters > 0 || s.owedByStoppers > 0 || s.task.Done?
  {
  }

  /** Once shut down, an unfinished purger runs, or the notification that wakes it is owed. */
  lemma ShutdownIsNoticed(s: State)
    requires Inv(s) && s.shutdown && !s.task.Done?
    ensures TaskRuns(s) || s.owedByStoppers > 0
  {
  }

  lemma NextExists(index: Index) returns (next: Option<nat>)
    ensures IsNext(index, next)
  {
    next := None;
    if x :| x in index {
      var w := LeastTime(index, x);
      next := Some(w);
    }
  }

  lemma {:induction false} LeastTime(index: Index, x: (nat, Key)) returns (w: nat)
    requires x in index
    ensures (exists k :: (w, k) in index) && forall y :: y in index ==> w <= y.0
    decreases x.0
  {
    if y :| y in index && y.0 < x.0 {
      w := LeastTime(index, y);
    } else {
      w := x.0;
      assert (w, x.1) in index;
    }
  }

  /**
  Awake and not shut down, the purger needs three steps of its own: then exactly the unexpired
  entries are left, and it sleeps until the first of them expires or waits if none ever will.
  */
  lemma AwakeTaskPurges(s: State) returns (actions: seq<Action>, last: State)
    requires Inv(s) && s.task.Heading? && !s.shutdown
    ensures |actions| == 3 && (forall k :: 0 <= k < 3 ==> actions[k].RunTask?) && Leads(s, actions, last)
    ensures last.entries == Live(s.entries, s.now) && Agrees(last.entries, last.index)
    ensures match last.task
            case Sleeping(until) => until > s.now && IsNext(last.index, Some(until))
            case Waiting => last.index == {}
            case _ => false
  {
    var next := NextExists(Later(s.index, s.now));
    var a := RunTask(next);
    actions := [a, a, a];
    var s1 := Apply(s, a);
    var s2 := Apply(s1, a);
    last := Apply(s2, a);
    assert Leads(s2, [a], last) by { assert Leads(last, [a][1..], last); }
    assert Leads(s1, [a, a], last) by { assert [a, a][1..] == [a]; }
    assert Leads(s, actions, last) by { assert actions[1..] == [a, a]; }
    LiveKeepsIndex(s.entries, s.index, s.now);
  }

  // ----- whenever the purger can step, it gets there -----

  /** A step of the purger itself: its own code, a wake-up, or the end of its sleep. */
  predicate OwnStep(a: Action) {
    a.RunTask? || a.WakeUp? || a.TimeOut?
  }

  predicate OwnSteps(actions: seq<Action>) {
    forall k :: 0 <= k < |actions| ==> OwnStep(actions[k])
  }

  lemma OneThen(s: State, a: Action, more: seq<Action>, last: State) returns (actions: seq<Action>)
    requires Enabled(s, a) && Leads(Apply(s, a), more, last)
    ensures actions == [a] + more && Leads(s, actions, last)
  {
    actions := [a] + more;
    assert actions[1..] == more;
  }

  /** The purger is woken up, or its sleep ends, and it looks at its flag again. */
  lemma Rouses(s: State) returns (a: Action)
    requires TaskRuns(s) && (s.task.Sleeping? || s.task.Waiting?)
    ensures OwnStep(a) && Enabled(s, a)
    ensures Apply(s, a) == s.(task := Heading, permit := Apply(s, a).permit)
    ensures !Apply(s, a).permit || s.permit
  {
    a := if s.permit then WakeUp else TimeOut;
  }

  /** The purge proper, under the lock. */
  lemma Purges(s: State) returns (a: Action)
    requires Inv(s) && s.task.Purging?
    ensures OwnStep(a) && Enabled(s, a) && Purged(s, Apply(s, a))
  {
    var next := NextExists(Later(s.index, s.now));
    a := RunTask(next);
    LiveKeepsIndex(s.entries, s.index, s.now);
  }

  /** Exactly the unexpired entries are left, and the purger sleeps until the first of them expires. */
  ghost predicate Purged(s: State, r: State) {
    && r.now == s.now && r.entries == Live(s.entries, s.now) && Agrees(r.entries, r.index)
    && match r.task
       case Sleeping(until) => until > r.now && IsNext(r.index, Some(until))
       case Waiting => r.index == {}
       case _ => false
  }

  function StepsToPurge(task: Task): nat {
    match task case Purging => 1 case Entering => 2 case Heading => 3 case _ => 4
  }

  /**
  Whenever the purger can take a step and no shutdown was asked for, at most four steps of its own
  end in a purge: exactly the unexpired entries are left, and it sleeps until the next expiry.
  */
  lemma {:induction false} RunningTaskPurges(s: State) returns (actions: seq<Action>, last: State)
    requires Inv(s) && TaskRuns(s) && !s.shutdown
    ensures |actions| <= StepsToPurge(s.task) <= 4 && OwnSteps(actions) && Leads(s, actions, last) && Purged(s, last)
    decreases StepsToPurge(s.task)
  {
    var a;
    if s.task.Purging? {
      a := Purges(s);
      last := Apply(s, a);
      actions := OneThen(s, a, [], last);
    } else {
      if s.task.Sleeping? || s.task.Waiting? { a := Rouses(s); } else { a := RunTask(None); }
      KeepInv(s, a);
      actions, last := RunningTaskPurges(Apply(s, a));
      actions := OneThen(s, a, actions, last);
    }
  }

  /** A notification that is owed, if the purger cannot step without it. */
  lemma NotifiesIfNeeded(s: State) returns (actions: seq<Action>, last: State)
    requires Inv(s) && !s.shutdown && (TaskRuns(s) || s.owedBySetters > 0 || s.owedByStoppers > 0)
    ensures |actions| <= 1 && (forall i :: 0 <= i < |actions| ==> actions[i].NotifySet? || actions[i].NotifyShutdown?)
    ensures Leads(s, actions, last) && Inv(last) && TaskRuns(last) && !last.shutdown
    ensures last.now == s.now && last.entries == s.entries
  {
    if TaskRuns(s) { return [], s; }
    var a := if s.owedBySetters > 0 then NotifySet else NotifyShutdown;
    KeepInv(s, a);
    last := Apply(s, a);
    actions := OneThen(s, a, [], last);
  }

  /**
  Every entry that expires is purged: once its time has come, at most one notification still owed
  and four steps of the purger remove it, whatever else has been set before.
  */
  lemma ExpiredIsPurged(s: State, key: Key, to: nat) returns (actions: seq<Action>, last: State)
    requires Inv(s) && !s.shutdown && key in s.entries && s.entries[key].expiresAt.Some?
    requires to >= s.now && to >= s.entries[key].expiresAt.value
    ensures |actions| <= 6 && actions != [] && actions[0] == Tick(to) && Leads(s, actions, last)
    ensures forall i :: 1 <= i < |actions| ==>
              OwnStep(actions[i]) || actions[i].NotifySet? || actions[i].NotifyShutdown?
    ensures last.now == to && key !in last.entries && last.entries == Live(s.entries, to)
  {
    var later := Apply(s, Tick(to));
    KeepInv(s, Tick(to));
    assert (s.entries[key].expiresAt.value, key) in s.index;
    OverdueIsNoticed(later, (s.entries[key].expiresAt.value, key));
    var notified, mid := NotifiesIfNeeded(later);
    var own;
    own, last := RunningTaskPurges(mid);
    Chain(later, notified, mid, own, last);
    actions := OneThen(s, Tick(to), notified + own, last);
  }

  // ----- a shutdown takes effect -----

  lemma {:induction false} ShutdownStays(s: State, actions: seq<Action>, last: State)
    requires s.shutdown && Leads(s, actions, last)
    ensures last.shutdown
    decreases |actions|
  {
    if actions != [] { ShutdownStays(Apply(s, actions[0]), actions[1..], last); }
  }

  lemma {:induction false} ShutdownIsSet(s: State, actions: seq<Action>, last: State, k: nat)
    requires Leads(s, actions, last) && k < |actions| && actions[k].Shutdown?
    ensures last.shutdown
    decreases k
  {
    if k == 0 { ShutdownStays(Apply(s, actions[0]), actions[1..], last); }
    else { ShutdownIsSet(Apply(s, actions[0]), actions[1..], last, k - 1); }
  }

  /** With every notification of a shutdown delivered, own steps of the purger end it. */
  lemma {:induction false} NotifiedTaskEnds(s: State) returns (actions: seq<Action>, last: State)
    requires Inv(s) && s.shutdown && s.owedByStoppers == 0
    ensures OwnSteps(actions) && Leads(s, actions, last) && last.task.Done?
    decreases match s.task case Done => 0 case Heading => 1 case Sleeping(_) => 2 case Waiting => 2 case _ => 3
  {
    if s.task.Done? { return [], s; }
    var a;
    if s.task.Sleeping? || s.task.Waiting? { a := Rouses(s); }
    else if s.task.Purging? { a := Purges(s); }
    else { a := RunTask(None); }
    KeepInv(s, a);
    actions, last := NotifiedTaskEnds(Apply(s, a));
    actions := OneThen(s, a, actions, last);
  }

  /** Every notification that a stopper owes is delivered. */
  lemma {:induction false} DeliverAll(s: State) returns (actions: seq<Action>, last: State)
    requires Inv(s)
    ensures forall k :: 0 <= k < |actions| ==> actions[k] == NotifyShutdown
    ensures Leads(s, actions, last) && Inv(last) && last.owedByStoppers == 0 && last.shutdown == s.shutdown
    decreases s.owedByStoppers
  {
    if s.owedByStoppers == 0 { return [], s; }
    KeepInv(s, NotifyShutdown);
    actions, last := DeliverAll(Apply(s, NotifyShutdown));
    actions := OneThen(s, NotifyShutdown, actions, last);
  }

  lemma {:induction false} Chain(s: State, first: seq<Action>, mid: State, second: seq<Action>, last: State)
    requires Leads(s, first, mid) && Leads(mid, second, last)
    ensures Leads(s, first + second, last)
    decreases |first|
  {
    if first == [] { assert first + second == second; }
    else {
      assert (first + second)[1..] == first[1..] + second;
      Chain(Apply(s, first[0]), first[1..], mid, second, last);
    }
  }

  /**
  Over every run that contains a shutdown the flag stays set; and from the state it ends in, the
  notifications still owed and then steps of the purger alone end the purger.
  */
  lemma ShutdownTakesEffect(s: State, actions: seq<Action>, last: State, k: nat)
    returns (delivered: seq<Action>, own: seq<Action>, end: State)
    requires Init(s) && Leads(s, actions, last) && k < |actions| && actions[k].Shutdown?
    ensures last.shutdown && (forall i :: 0 <= i < |delivered| ==> delivered[i] == NotifyShutdown) && OwnSteps(own)
    ensures Leads(last, delivered + own, end) && end.task.Done? && end.shutdown
  {
    ShutdownIsSet(s, actions, last, k);
    Reachable(s, actions, last);
    var mid;
    delivered, mid := DeliverAll(last);
    own, end := NotifiedTaskEnds(mid);
    Chain(last, delivered, mid, own, end);
    ShutdownStays(last, delivered + own, end);
  }

  // ----- what was set is there until it expires -----

  lemma {:induction false} LastSetStays(s: State, actions: seq<Action>, last: State, key: Key)
    requires Leads(s, actions, last) && key in s.lastSet
    requires forall i :: 0 <= i < |actions| && actions[i].SetEntry? ==> actions[i].key != key
    ensures key in last.lastSet && last.lastSet[key] == s.lastSet[key]
    decreases |actions|
  {
    if actions != [] {
      forall i | 0 <= i < |actions[1..]| ensures actions[1..][i] == actions[i + 1] {}
      LastSetStays(Apply(s, actions[0]), actions[1..], last, key);
    }
  }

  lemma {:induction false} LastSetIs(s: State, actions: seq<Action>, last: State, k: nat)
    requires Leads(s, actions, last) && k < |actions| && actions[k].SetEntry?
    requires forall i :: k < i < |actions| && actions[i].SetEntry? ==> actions[i].key != actions[k].key
    ensures actions[k].key in last.lastSet && last.lastSet[actions[k].key] == actions[k].entry
    decreases k
  {
    forall i | 0 <= i < |actions[1..]| ensures actions[1..][i] == actions[i + 1] {}
    if k == 0 { LastSetStays(Apply(s, actions[0]), actions[1..], last, actions[0].key); }
    else { LastSetIs(Apply(s, actions[0]), actions[1..], last, k - 1); }
  }

  /**
  Over every run: the entry that was set last for a key is the one that is stored, unless it has
  expired; and one that never expires is stored for ever.
  */
  lemma SetIsRemembered(s: State, actions: seq<Action>, last: State, k: nat)
    requires Init(s) && Leads(s, actions, last) && k < |actions| && actions[k].SetEntry?
    requires forall i :: k < i < |actions| && actions[i].SetEntry? ==> actions[i].key != actions[k].key
    ensures var SetEntry(key, e) := actions[k];
            if key in last.entries then last.entries[key] == e else Expired(e, last.now)
  {
    LastSetIs(s, actions, last, k);
    Reachable(s, actions, last);
  }
}
