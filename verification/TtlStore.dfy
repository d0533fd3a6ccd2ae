/** A key-value store whose entries may expire, with an index of expirations in order. */
module TtlStore {
  import opened Storage

  type Key = string

  datatype Entry = Entry(data: Bytes, expiresAt: Option<nat>)

  type Entries = map<Key, Entry>

  type Index = set<(nat, Key)>

  /** The index lists exactly the entries that expire, under the time at which they do. */
  ghost predicate Agrees(entries: Entries, index: Index) {
    forall w, k :: (w, k) in index <==> k in entries && entries[k].expiresAt == Some(w)
  }

  /** The first time in the index, if there is one. */
  ghost predicate IsNext(index: Index, next: Option<nat>) {
    match next
    case None => index == {}
    case Some(w) => (exists k :: (w, k) in index) && forall x :: x in index ==> w <= x.0
  }

  /** An entry set to expire at `when` expires before everything in the index. */
  predicate Earliest(index: Index, when: Option<nat>) {
    when.Some? && forall x :: x in index ==> x.0 > when.value
  }

  function Unindexed(entries: Entries, index: Index, key: Key): Index {
    if key in entries && entries[key].expiresAt.Some? then index - {(entries[key].expiresAt.value, key)} else index
  }

  function Reindexed(entries: Entries, index: Index, key: Key, when: Option<nat>): Index {
    Unindexed(entries, index, key) + if when.Some? then {(when.value, key)} else {}
  }

  lemma SetKeepsIndex(entries: Entries, index: Index, key: Key, e: Entry)
    requires Agrees(entries, index)
    ensures Agrees(entries[key := e], Reindexed(entries, index, key, e.expiresAt))
  {
  }

  predicate Expired(e: Entry, now: nat) {
    e.expiresAt.Some? && e.expiresAt.value <= now
  }

  /** The entries that do not expire, or later than `now`. */
  function Live(entries: Entries, now: nat): Entries {
    map k | k in entries && !Expired(entries[k], now) :: entries[k]
  }

  function Later(index: Index, now: nat): Index {
    set x | x in index && x.0 > now
  }

  lemma LiveKeepsIndex(entries: Entries, index: Index, now: nat)
    requires Agrees(entries, index)
    ensures Agrees(Live(entries, now), Later(index, now))
  {
  }

  /** Dropping one expired entry leaves the same live entries. */
  lemma DropExpired(entries: Entries, index: Index, x: (nat, Key), now: nat)
    requires Agrees(entries, index) && x in index && x.0 <= now
    ensures x.1 in entries && Agrees(entries - {x.1}, index - {x})
    ensures Live(entries - {x.1}, now) == Live(entries, now) && Later(index - {x}, now) == Later(index, now)
  {
  }

  class Db {
    var entries: Entries
    var expirations: Index
    var shutdown: bool

    /** A stored wake-up for the background task. */
    var permit: bool

    ghost predicate Valid()
      reads this
    {
      Agrees(entries, expirations)
    }

    constructor ()
      ensures Valid() && entries == map[] && expirations == {} && !shutdown && !permit
    {
      entries, expirations, shutdown, permit := map[], {}, false, false;
    }

    method Get(key: Key) returns (data: Option<Bytes>)
      ensures data == if key in entries then Some(entries[key].data) else None
    {
      data := if key in entries then Some(entries[key].data) else None;
    }

    /** The head of the ordered index. */
    method FirstExpiration() returns (first: Option<(nat, Key)>)
      ensures if first.Some? then first.value in expirations && forall x :: x in expirations ==> first.value.0 <= x.0
              else expirations == {}
    {
      if expirations == {} { return None; }
      var rest := expirations;
      var least :| least in rest;
      rest := rest - {least};
      while rest != {}
        invariant rest <= expirations && least in expirations
        invariant forall x :: x in expirations - rest ==> least.0 <= x.0
        decreases |rest|
      {
        var x :| x in rest;
        rest := rest - {x};
        if x.0 < least.0 { least := x; }
      }
      first := Some(least);
    }

    method NextExpiration() returns (next: Option<nat>)
      ensures IsNext(expirations, next)
    {
      var first := FirstExpiration();
      if first.None? { return None; }
      assert (first.value.0, first.value.1) in expirations;
      next := Some(first.value.0);
    }

    /** Set under the lock; tells whether the background task must be woken up afterwards. */
    method SetEntry(key: Key, value: Bytes, when: Option<nat>) returns (notify: bool)
      requires Valid()
      modifies this`entries, this`expirations
      ensures Valid() && entries == old(entries)[key := Entry(value, when)]
      ensures expirations == Reindexed(old(entries), old(expirations), key, when)
      ensures notify <==> Earliest(old(expirations), when)
    {
      notify := false;
      if when.Some? {
        var next := NextExpiration();
        notify := if next.Some? then next.value > when.value else true;
      }
      SetKeepsIndex(entries, expirations, key, Entry(value, when));
      var prev := if key in entries then entries[key].expiresAt else None;
      entries := entries[key := Entry(value, when)];
      if prev.Some? { expirations := expirations - {(prev.value, key)}; }
      if when.Some? { expirations := expirations + {(when.value, key)}; }
    }

    method Set(key: Key, value: Bytes, when: Option<nat>)
      requires Valid()
      modifies this
      ensures Valid() && entries == old(entries)[key := Entry(value, when)] && shutdown == old(shutdown)
      ensures permit == (old(permit) || Earliest(old(expirations), when))
    {
      var notify := SetEntry(key, value, when);
      if notify { permit := true; }
    }

    method ShutdownPurgeTask()
      modifies this`shutdown, this`permit
      ensures shutdown && permit
    {
      shutdown := true;
      permit := true;
    }

    /** Remove what has expired by `now`, and tell when the next entry will. */
    method PurgeExpiredKeys(now: nat) returns (next: Option<nat>)
      requires Valid()
      modifies this`entries, this`expirations
      ensures Valid()
      ensures if shutdown then next.None? && entries == old(entries) && expirations == old(expirations)
              else && entries == Live(old(entries), now) && expirations == Later(old(expirations), now)
                   && IsNext(expirations, next)
    {
      if shutdown { return None; }
      var first := FirstExpiration();
      while first.Some? && first.value.0 <= now
        invariant Valid()
        invariant Live(entries, now) == Live(old(entries), now)
        invariant Later(expirations, now) == Later(old(expirations), now)
        invariant if first.Some? then && first.value in expirations
                                      && forall x :: x in expirations ==> first.value.0 <= x.0
                  else expirations == {}
        decreases |expirations|
      {
        DropExpired(entries, expirations, first.value, now);
        entries := entries - {first.value.1};
        expirations := expirations - {first.value};
        first := FirstExpiration();
      }
      assert Later(expirations, now) == expirations;
      NothingExpired(entries, expirations, now);
      if first.Some? { assert (first.value.0, first.value.1) in expirations; }
      next := if first.Some? then Some(first.value.0) else None;
    }
  }

  lemma NothingExpired(entries: Entries, index: Index, now: nat)
    requires Agrees(entries, index) && forall x :: x in index ==> x.0 > now
    ensures Live(entries, now) == entries
  {
    forall k | k in entries ensures !Expired(entries[k], now) {
      if entries[k].expiresAt.Some? { assert (entries[k].expiresAt.value, k) in index; }
    }
  }
}
