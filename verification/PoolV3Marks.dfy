/** Reference marks and guards of the concurrent pool: who sets them, who takes them away, and nobody else. */
module PoolV3Marks {
  import opened Storage
  import opened PoolV3
  import opened PoolV3Invariant
  import opened PoolV3Coherence
  import opened PoolV3Runs
  import PoolV3Pins
  import PoolV3Progress

  // ----- reference marks -----

  /** A fetch hits frame `f`. */
  ghost predicate Hits(s: State, a: Action, f: nat)
    requires Enabled(s, a)
  {
    a.Run? && s.threads[a.t].Lookup? && s.threads[a.t].page in s.table && s.table[s.threads[a.t].page] == Ready(f)
  }

  /** A load puts its page's bytes into frame `f`. */
  ghost predicate LoadsInto(s: State, a: Action, f: nat)
    requires Enabled(s, a)
  {
    a.Run? && s.threads[a.t].Load? && s.threads[a.t].stage.Replacing? && s.threads[a.t].stage.f == f
  }

  /** The first sweep of a search finds frame `f` free to be taken. */
  ghost predicate FirstSweepFinds(s: State, a: Action, f: nat)
    requires Enabled(s, a)
  {
    && a.Run? && s.threads[a.t].Load? && s.threads[a.t].stage.Reserving? && s.threads[a.t].stage.f == f
    && s.threads[a.t].stage.k < |s.frames| && Reservable(s, f, s.threads[a.t].stage.snapshot)
  }

  /** The mark of frame `f` after the action. */
  ghost function MarkAfter(s: State, a: Action, f: nat): bool
    requires Enabled(s, a) && f < |s.frames|
  {
    if Hits(s, a, f) then s.frames[f].referenced || s.threads[a.t].mode == Normal
    else if LoadsInto(s, a, f) then s.threads[a.t].mode == Normal
    else if FirstSweepFinds(s, a, f) then false
    else s.frames[f].referenced
  }

  lemma SearchMarks(s: State, t: nat, f: nat)
    requires CanRun(s, t) && s.threads[t].Load? && IsSearch(s.threads[t].stage) && f < |s.frames|
    ensures SearchStep(s, t).frames[f].referenced == MarkAfter(s, Run(t), f)
  {
    match s.threads[t].stage
    case Choosing(_) =>
    case Looking(_, _) => assert SearchStep(s, t) == SnapshotStep(s, t);
    case Reserving(_, _, _) => assert SearchStep(s, t) == ReserveStep(s, t);
    case Scanning(_) => assert SearchStep(s, t) == ScanStep(s, t);
    case _ =>
  }

  lemma InstallMarks(s: State, t: nat, f: nat)
    requires CanRun(s, t) && s.threads[t].Load? && IsInstall(s.threads[t].stage) && f < |s.frames|
    ensures InstallStep(s, t).frames[f].referenced == MarkAfter(s, Run(t), f)
  {
    match s.threads[t].stage
    case Reserved(_, _) =>
    case Cleaning(_, _) =>
    case Replacing(_, _, _) =>
    case RemovingOld(_, _) =>
    case Publishing(_) =>
    case _ =>
  }

  lemma RollbackMarks(s: State, t: nat, f: nat)
    requires CanRun(s, t) && s.threads[t].Load? && IsRollback(s.threads[t].stage) && f < |s.frames|
    ensures RollbackStep(s, t).frames[f].referenced == s.frames[f].referenced
  {
  }

  lemma FlushMarks(s: State, t: nat, f: nat)
    requires CanRun(s, t) && s.threads[t].Flush? && f < |s.frames|
    ensures FlushStep(s, t).frames[f].referenced == s.frames[f].referenced
  {
  }

  /**
  Who is evicted next hangs on the reference marks, and they change as follows and in no other
  way: a hit in Normal mode sets its frame's mark, a load sets it in Normal mode and clears it for a
  bulk read, and the first sweep of a search clears it where it finds a frame free to be taken.
  */
  lemma MarksExactly(s: State, a: Action, f: nat)
    requires Enabled(s, a) && f < |s.frames|
    ensures f < |Apply(s, a).frames| && Apply(s, a).frames[f].referenced == MarkAfter(s, a, f)
  {
    if a.Run? {
      if s.threads[a.t].Load? {
        if IsSearch(s.threads[a.t].stage) { SearchMarks(s, a.t, f); }
        else if IsInstall(s.threads[a.t].stage) { InstallMarks(s, a.t, f); }
        else { RollbackMarks(s, a.t, f); }
      } else if s.threads[a.t].Flush? { FlushMarks(s, a.t, f); }
    }
  }

  /** Frame `f` is the one that thread `t` has just loaded a page into. */
  ghost predicate HasLoaded(s: State, t: nat, f: nat) {
    && t < |s.threads| && s.threads[t].Load? && f < |s.frames|
    && match s.threads[t].stage
       case RemovingOld(g, _) => g == f
       case Publishing(g) => g == f
       case Finishing(g) => g == f
       case Returning(g) => g == f
       case _ => false
  }

  /** Its mark is the mode of the fetch until the page is published, and a Normal mark is not lost afterwards. */
  ghost predicate MarkedByMode(s: State, t: nat, f: nat)
    requires HasLoaded(s, t, f)
  {
    var pc := s.threads[t];
    if pc.stage.RemovingOld? || pc.stage.Publishing? then s.frames[f].referenced <==> pc.mode == Normal
    else pc.mode == Normal ==> s.frames[f].referenced
  }

  /** Nobody else can take the mark of a frame away from the thread that has loaded it. */
  lemma OthersKeepMark(s: State, a: Action, t: nat, f: nat)
    requires Inv(s) && Enabled(s, a) && HasLoaded(s, t, f) && (a.Run? ==> a.t != t)
    ensures !LoadsInto(s, a, f) && !FirstSweepFinds(s, a, f)
    ensures s.threads[t].stage.RemovingOld? || s.threads[t].stage.Publishing? ==> !Hits(s, a, f)
  {
    assert ThreadOk(s, t);
    PoolV3Progress.PinIsCounted(s, t);
    if a.Run? {
      assert ThreadOk(s, a.t);
      if s.threads[a.t].Lookup? && s.threads[a.t].page in s.table { assert EntryOk(s, s.threads[a.t].page); }
    }
  }

  lemma OwnMark(s: State, t: nat, f: nat)
    requires Inv(s) && CanRun(s, t) && HasLoaded(s, t, f) && MarkedByMode(s, t, f) && !s.threads[t].stage.Returning?
    ensures HasLoaded(RunStep(s, t), t, f) && MarkedByMode(RunStep(s, t), t, f)
  {
    assert ThreadOk(s, t);
    match s.threads[t].stage
    case RemovingOld(_, _) =>
    case Publishing(_) =>
    case Finishing(_) =>
  }

  /** A load begins by giving its frame the mark of its mode. */
  lemma LoadMarks(s: State, t: nat)
    requires CanRun(s, t) && s.threads[t].Load? && s.threads[t].stage.Replacing?
    ensures HasLoaded(RunStep(s, t), t, s.threads[t].stage.f) && MarkedByMode(RunStep(s, t), t, s.threads[t].stage.f)
  {
    assert RunStep(s, t) == ReplaceStep(s, t);
  }

  /**
  From then on, whatever anyone does, the mark stays as the mode demands, until the load replies:
  a page fetched in Normal mode comes back with its frame marked.
  */
  lemma MarkLasts(s: State, a: Action, t: nat, f: nat)
    requires Inv(s) && Enabled(s, a) && HasLoaded(s, t, f) && MarkedByMode(s, t, f)
    ensures if a == Run(t) && s.threads[t].stage.Returning?
            then f < |Apply(s, a).frames| && (s.threads[t].mode == Normal ==> Apply(s, a).frames[f].referenced)
            else HasLoaded(Apply(s, a), t, f) && MarkedByMode(Apply(s, a), t, f)
  {
    MarksExactly(s, a, f);
    OthersStay(s, a, t);
    if a == Run(t) {
      if !s.threads[t].stage.Returning? { OwnMark(s, t, f); }
    } else {
      OthersKeepMark(s, a, t, f);
    }
  }

  // ----- guards -----

  /** The action hands out guard `g`. */
  ghost predicate HandsOut(s: State, a: Action, g: nat)
    requires Enabled(s, a)
  {
    && a.Run? && (s.threads[a.t].Lookup? || s.threads[a.t].Load?)
    && Apply(s, a).threads[a.t] == Idle(Guarded(g))
  }

  lemma LookupHandsOut(s: State, t: nat)
    requires CanRun(s, t) && s.threads[t].Lookup?
    ensures if LookupStep(s, t).threads[t].Idle?
            then LookupStep(s, t).threads[t] == Idle(Guarded(s.serial))
                 && LookupStep(s, t).guards.Keys == s.guards.Keys + {s.serial}
                 && forall g :: g in s.guards && g != s.serial ==> LookupStep(s, t).guards[g] == s.guards[g]
            else LookupStep(s, t).guards == s.guards
  {
  }

  lemma LoadHandsOut(s: State, t: nat)
    requires CanRun(s, t) && s.threads[t].Load?
    ensures LoadStep(s, t).threads[t].Idle? && LoadStep(s, t).threads[t].reply.Guarded?
            <==> s.threads[t].stage.Returning?
    ensures s.threads[t].stage.Returning? ==> LoadStep(s, t).threads[t] == Idle(Guarded(s.serial))
  {
    if IsInstall(s.threads[t].stage) {
      if s.threads[t].stage.Returning? { assert LoadStep(s, t) == ReturnStep(s, t); }
      else { InstallRepliesNothing(s, t); }
    }
  }

  lemma InstallRepliesNothing(s: State, t: nat)
    requires CanRun(s, t) && s.threads[t].Load? && IsInstall(s.threads[t].stage) && !s.threads[t].stage.Returning?
    ensures InstallStep(s, t).threads[t].Load?
  {
  }

  /**
  The guards that exist: a reply adds its own, which is new, dropping one removes it, and nothing
  else makes any or takes any away. A guard keeps its page and frame, and is writing from the
  beginning of a write to its end.
  */
  lemma GuardsExactly(s: State, a: Action, g: nat)
    requires Inv(s) && Enabled(s, a)
    ensures g in Apply(s, a).guards <==> (g in s.guards && a != DropGuard(g)) || HandsOut(s, a, g)
    ensures HandsOut(s, a, g) ==> g !in s.guards
    ensures g in s.guards && a != DropGuard(g) ==>
              Apply(s, a).guards[g] == s.guards[g].(writing := if a == BeginWrite(g) then true
                                                               else if a.EndWrite? && a.g == g then false
                                                               else s.guards[g].writing)
  {
    PoolV3Pins.FreshGuard(s);
    if a.Run? {
      match s.threads[a.t]
      case Lookup(_, _) => LookupHandsOut(s, a.t);
      case Load(_, _, _, _) => LoadHandsOut(s, a.t); LoadKeepsGuards(s, a.t);
      case Flush(_, _, _) => FlushKeepsGuards(s, a.t);
      case _ =>
    }
  }

  lemma FlushKeepsGuards(s: State, t: nat)
    requires CanRun(s, t) && s.threads[t].Flush?
    ensures FlushStep(s, t).guards == s.guards
  {
  }

  /** Over every run: a guard exists until it is dropped, and not again afterwards. */
  lemma {:induction false} GuardLives(s: State, actions: seq<Action>, last: State, g: nat)
    requires Inv(s) && SafelyLeads(s, actions, last) && g < s.serial
    ensures g in last.guards <==> g in s.guards && DropGuard(g) !in actions
    ensures g in last.guards ==> last.guards[g].page == s.guards[g].page && last.guards[g].frame == s.guards[g].frame
    decreases |actions|
  {
    if actions != [] {
      var a := actions[0];
      GuardsExactly(s, a, g);
      SerialGrows(s, a);
      KeepStep(s, a);
      GuardLives(Apply(s, a), actions[1..], last, g);
      assert DropGuard(g) in actions <==> a == DropGuard(g) || DropGuard(g) in actions[1..];
    }
  }

  lemma SerialGrows(s: State, a: Action)
    requires Enabled(s, a)
    ensures Apply(s, a).serial >= s.serial
    ensures forall g :: HandsOut(s, a, g) ==> g == s.serial
  {
    if a.Run? {
      match s.threads[a.t]
      case Lookup(_, _) => LookupHandsOut(s, a.t);
      case Load(_, _, _, _) => LoadHandsOut(s, a.t); LoadSerial(s, a.t);
      case _ =>
    }
  }

  lemma LoadSerial(s: State, t: nat)
    requires CanRun(s, t) && s.threads[t].Load?
    ensures LoadStep(s, t).serial >= s.serial
  {
    if IsSearch(s.threads[t].stage) { SearchSerial(s, t); }
    else if IsInstall(s.threads[t].stage) { InstallSerial(s, t); }
  }

  lemma SearchSerial(s: State, t: nat)
    requires CanRun(s, t) && s.threads[t].Load? && IsSearch(s.threads[t].stage)
    ensures SearchStep(s, t).serial == s.serial
  {
  }

  lemma InstallSerial(s: State, t: nat)
    requires CanRun(s, t) && s.threads[t].Load? && IsInstall(s.threads[t].stage)
    ensures InstallStep(s, t).serial >= s.serial
  {
  }
}
