/** Insertion into a slotted page, on the bytes and on the map from slots to records. */
module PageInsert {
  import opened Storage
  import opened PageLayout

  // ----- the specification, on views -----

  /** The first slot without a record, or a new one at the end. */
  function FreeSlot(rs: seq<Option<Bytes>>): (k: nat)
    ensures k <= |rs| && (k < |rs| ==> rs[k].None?) && forall i :: 0 <= i < k ==> rs[i].Some?
  {
    if rs == [] || rs[0].None? then 0 else 1 + FreeSlot(rs[1..])
  }

  /** Directory bytes that one more record costs. */
  function SlotCost(rs: seq<Option<Bytes>>): nat {
    if FreeSlot(rs) < |rs| then 0 else SLOT_SIZE
  }

  function DirectoryEnd(rs: seq<Option<Bytes>>): nat {
    HEADER_SIZE + SLOT_SIZE * |rs|
  }

  function Stored(rs: seq<Option<Bytes>>, k: nat, r: Bytes): seq<Option<Bytes>>
    requires k <= |rs|
  {
    if k < |rs| then rs[k := Some(r)] else rs + [Some(r)]
  }

  predicate Fits(v: View, r: Bytes) {
    DirectoryEnd(v.records) + SlotCost(v.records) + |r| <= v.upper
  }

  function Insert(v: View, r: Bytes): (View, Option<nat>) {
    if !Fits(v, r) then (v, None)
    else (View(Stored(v.records, FreeSlot(v.records), r), v.upper - |r|), Some(FreeSlot(v.records)))
  }

  // ----- the operation, on bytes -----

  function FindTombstone(d: Bytes, k: nat): (slot: Option<nat>)
    requires Framed(d) && k <= Count(d)
    ensures slot.Some? ==> k <= slot.value < Count(d) && !Live(d, slot.value)
    ensures slot.Some? ==> forall i :: k <= i < slot.value ==> Live(d, i)
    ensures slot.None? ==> forall i :: k <= i < Count(d) ==> Live(d, i)
    decreases Count(d) - k
  {
    if k == Count(d) then None else if !Live(d, k) then Some(k) else FindTombstone(d, k + 1)
  }

  function FreeSpace(d: Bytes): nat
    requires |d| == PAGE_SIZE
  {
    if Upper(d) >= Lower(d) then Upper(d) - Lower(d) else 0
  }

  function Needed(d: Bytes, r: Bytes): nat
    requires Framed(d)
  {
    |r| + if FindTombstone(d, 0).Some? then 0 else SLOT_SIZE
  }

  function SlotFor(d: Bytes): nat
    requires Framed(d)
  {
    var reused := FindTombstone(d, 0);
    if reused.Some? then reused.value else Count(d)
  }

  predicate HasRoom(d: Bytes, r: Bytes)
    requires Framed(d)
  {
    |r| < U16_LIMIT && Needed(d, r) <= FreeSpace(d)
  }

  /** The page after a successful insertion. */
  function Inserted(d: Bytes, r: Bytes): (e: Bytes)
    requires Framed(d) && HasRoom(d, r)
    ensures |e| == PAGE_SIZE
  {
    Put16(Place(Grown(d), SlotFor(d), Upper(d) - |r|, r), 11, Upper(d) - |r|)
  }

  /** The page with a directory entry added unless a tombstone can be reused. */
  function Grown(d: Bytes): (e: Bytes)
    requires Framed(d)
    ensures |e| == PAGE_SIZE && Count(e) == (if SlotFor(d) < Count(d) then Count(d) else Count(d) + 1)
    ensures forall i :: 0 <= i < PAGE_SIZE && !(9 <= i < 11) ==> e[i] == d[i]
  {
    if SlotFor(d) < Count(d) then d else Put16(d, 9, Count(d) + 1)
  }

  // ----- bytes refine views -----

  /** `e` is `d` with the record `r` put into slot `k`, just below the record region. */
  ghost predicate HasInserted(d: Bytes, e: Bytes, r: Bytes, k: nat) {
    && Framed(d) && Framed(e) && |r| <= Upper(d) && Upper(e) == Upper(d) - |r|
    && k <= Count(d) && k < Count(e) && Count(e) == (if k < Count(d) then Count(d) else Count(d) + 1)
    && Offset(e, k) == Upper(e) && Length(e, k) == |r|
    && e[Upper(e)..Upper(d)] == r
    && (forall i :: SlotBase(0) <= i < PAGE_SIZE && !(SlotBase(k) <= i < SlotBase(k + 1)) && !(Upper(e) <= i < Upper(d))
                    ==> e[i] == d[i])
    && (forall i :: 0 <= i < 9 || 13 <= i < HEADER_SIZE ==> e[i] == d[i])
  }

  lemma InsertedBytes(d: Bytes, r: Bytes)
    requires Framed(d) && HasRoom(d, r)
    ensures HasInserted(d, Inserted(d, r), r, SlotFor(d))
  {
    var g, k, at := Grown(d), SlotFor(d), Upper(d) - |r|;
    var p := Place(g, k, at, r);
    var e := Put16(p, 11, at);
    assert e == Inserted(d, r);
    PlacedIsInserted(d, g, p, e, r);
  }

  lemma PlacedIsInserted(d: Bytes, g: Bytes, p: Bytes, e: Bytes, r: Bytes)
    requires Framed(d) && HasRoom(d, r) && g == Grown(d)
    requires Placed(g, p, SlotFor(d), Upper(d) - |r|, r)
    requires |e| == PAGE_SIZE && Upper(e) == Upper(d) - |r|
    requires forall i :: 0 <= i < PAGE_SIZE && !(11 <= i < 13) ==> e[i] == p[i]
    ensures HasInserted(d, e, r, SlotFor(d))
  {
    assert Count(e) == Count(p) == Count(g);
    assert e[Upper(e)..Upper(d)] == p[Upper(e)..Upper(d)];
  }

  lemma SlotForIsFree(d: Bytes)
    requires Bounded(d)
    ensures SlotFor(d) == FreeSlot(Records(d))
    ensures Needed(d, []) == SlotCost(Records(d))
  {
    var rs := Records(d);
    var j, k := FreeSlot(rs), SlotFor(d);
    assert j < |rs| ==> rs[j] == Record(d, j);
    assert k < j ==> rs[k] == Record(d, k);
  }

  lemma InsertedSlots(d: Bytes, e: Bytes, r: Bytes, k: nat, i: nat)
    requires Bounded(d) && HasInserted(d, e, r, k) && i < Count(e)
    ensures i != k ==> i < Count(d) && Offset(e, i) == Offset(d, i) && Length(e, i) == Length(d, i)
    ensures InBounds(e, i) && Record(e, i) == if i == k then Some(r) else Record(d, i)
  {
    if i != k { SameRecord(d, e, i); }
  }

  lemma InsertedRecords(d: Bytes, e: Bytes, r: Bytes, k: nat)
    requires Bounded(d) && HasInserted(d, e, r, k)
    ensures Bounded(e) && Records(e) == Stored(Records(d), k, r)
  {
    forall i | 0 <= i < Count(e) ensures InBounds(e, i) { InsertedSlots(d, e, r, k, i); }
    var rs, rs' := Stored(Records(d), k, r), Records(e);
    forall i | 0 <= i < Count(e) ensures rs'[i] == rs[i] { InsertedSlots(d, e, r, k, i); }
  }

  lemma {:induction false} RecordBytesStored(rs: seq<Option<Bytes>>, k: nat, r: Bytes)
    requires k <= |rs| && (k < |rs| ==> rs[k].None?)
    ensures RecordBytes(Stored(rs, k, r)) == RecordBytes(rs) + |r|
  {
    var s := Stored(rs, k, r);
    if k >= |rs| - 1 {
      assert s[..|s| - 1] == if k == |rs| then rs else rs[..|rs| - 1];
    } else {
      RecordBytesStored(rs[..|rs| - 1], k, r);
      assert s[..|s| - 1] == Stored(rs[..|rs| - 1], k, r);
    }
  }

  lemma InsertedApart(d: Bytes, e: Bytes, r: Bytes, k: nat, i: nat, j: nat)
    requires Built(d) && HasInserted(d, e, r, k) && i < j < Count(e)
    ensures Bounded(e) && Apart(e, i, j)
  {
    InsertedRecords(d, e, r, k);
    InsertedSlots(d, e, r, k, i);
    InsertedSlots(d, e, r, k, j);
    if i != k && j != k { assert Apart(d, i, j); }
    else if i != k { assert InBounds(d, i); }
    else if j != k { assert InBounds(d, j); }
  }

  lemma InsertedBuilt(d: Bytes, e: Bytes, r: Bytes, k: nat)
    requires Built(d) && HasInserted(d, e, r, k) && k == FreeSlot(Records(d))
    ensures Built(e)
  {
    InsertedRecords(d, e, r, k);
    RecordBytesStored(Records(d), k, r);
    forall i, j | 0 <= i < j < Count(e) ensures Apart(e, i, j) { InsertedApart(d, e, r, k, i, j); }
  }

  lemma RoomIsFit(d: Bytes, r: Bytes)
    requires Bounded(d)
    ensures HasRoom(d, r) <==> Fits(ViewOf(d), r)
  {
    SlotForIsFree(d);
  }

  /** On every accepted page insertion refines its specification and decides exactly; it keeps built pages built. */
  lemma InsertRefines(d: Bytes, r: Bytes) returns (e: Bytes)
    requires Bounded(d)
    ensures HasRoom(d, r) <==> Fits(ViewOf(d), r)
    ensures e == (if HasRoom(d, r) then Inserted(d, r) else d) && Bounded(e) && (Built(d) ==> Built(e))
    ensures ViewOf(e) == Insert(ViewOf(d), r).0
    ensures Insert(ViewOf(d), r).1 == if HasRoom(d, r) then Some(SlotFor(d)) else None
  {
    RoomIsFit(d, r);
    e := d;
    if HasRoom(d, r) {
      e := Inserted(d, r);
      InsertedBytes(d, r);
      SlotForIsFree(d);
      InsertedRecords(d, e, r, SlotFor(d));
      if Built(d) { InsertedBuilt(d, e, r, SlotFor(d)); }
    }
  }

  predicate SomeSlotFree(rs: seq<Option<Bytes>>) {
    exists k :: 0 <= k < |rs| && rs[k].None?
  }

  /**
  When there is room, in plain numbers: a record needs its own bytes, and four more for a slot
  entry unless some slot is without a record; that much must lie between directory and records.
  */
  lemma RoomByNumbers(d: Bytes, r: Bytes)
    requires Bounded(d)
    ensures HasRoom(d, r) <==>
              17 + 4 * |Records(d)| + (if SomeSlotFree(Records(d)) then 0 else 4) + |r|
              <= d[11] as nat + 0x100 * (d[12] as nat)
  {
    RoomIsFit(d, r);
    var k := FreeSlot(Records(d));
    if k < |Records(d)| { assert Records(d)[k].None?; }
  }

  /** The record goes right below the record region, which then begins with it; nothing in the region changes. */
  lemma InsertedByNumbers(d: Bytes, r: Bytes)
    requires Framed(d) && HasRoom(d, r)
    ensures var e, upper := Inserted(d, r), d[11] as nat + 0x100 * (d[12] as nat);
            && |e| == |d| == 4096 && |r| <= upper <= 4096
            && e[11] as nat + 0x100 * (e[12] as nat) == upper - |r| && e[upper - |r|..upper] == r
            && forall i :: upper <= i < 4096 ==> e[i] == d[i]
  {
    InsertedBytes(d, r);
  }
}
