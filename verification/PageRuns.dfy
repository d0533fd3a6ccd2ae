/** Deletion, compacting insertion, and whole runs of page operations from a new page. */
module PageRuns {
  import opened Storage
  import opened PageLayout
  import opened PageInsert
  import opened PageCompact
  import opened PageHeader

  // ----- deletion -----

  predicate CanDelete(d: Bytes, k: nat)
    requires Framed(d)
  {
    k < Count(d) && Live(d, k)
  }

  function Deleted(d: Bytes, k: nat): (e: Bytes)
    requires Framed(d) && CanDelete(d, k)
    ensures |e| == PAGE_SIZE
  {
    PutSlot(d, k, TOMBSTONE, 0)
  }

  function Delete(v: View, k: nat): (View, bool) {
    if k < |v.records| && v.records[k].Some? then (v.(records := v.records[k := None]), true) else (v, false)
  }

  lemma DeletedSlots(d: Bytes, e: Bytes, k: nat, i: nat)
    requires Bounded(d) && CanDelete(d, k) && e == Deleted(d, k) && i < Count(d)
    ensures Framed(e) && Count(e) == Count(d) && Upper(e) == Upper(d) && InBounds(e, i)
    ensures Record(e, i) == if i == k then None else Record(d, i)
    ensures i != k ==> Offset(e, i) == Offset(d, i) && Length(e, i) == Length(d, i)
  {
    assert InBounds(d, i);
    if i != k { SameRecord(d, e, i); }
  }

  lemma {:induction false} RecordBytesDeleted(rs: seq<Option<Bytes>>, k: nat)
    requires k < |rs|
    ensures RecordBytes(rs[k := None]) <= RecordBytes(rs)
  {
    var s := rs[k := None];
    if k == |rs| - 1 { assert s[..k] == rs[..k]; }
    else {
      RecordBytesDeleted(rs[..|rs| - 1], k);
      assert s[..|rs| - 1] == rs[..|rs| - 1][k := None];
    }
  }

  lemma DeletedBuilt(d: Bytes, k: nat)
    requires Built(d) && CanDelete(d, k) && Bounded(Deleted(d, k))
    requires Records(Deleted(d, k)) == Records(d)[k := None]
    ensures Built(Deleted(d, k))
  {
    var e := Deleted(d, k);
    DeletedSlots(d, e, k, k);
    RecordBytesDeleted(Records(d), k);
    forall i, j | 0 <= i < j < Count(e) ensures Apart(e, i, j) {
      DeletedSlots(d, e, k, i);
      DeletedSlots(d, e, k, j);
      assert Apart(d, i, j);
    }
  }

  /** On every accepted page deletion removes exactly the record of its slot. */
  lemma DeleteRefines(d: Bytes, k: nat) returns (e: Bytes)
    requires Bounded(d)
    ensures e == (if CanDelete(d, k) then Deleted(d, k) else d) && Bounded(e) && (Built(d) ==> Built(e))
    ensures ViewOf(e) == Delete(ViewOf(d), k).0 && Delete(ViewOf(d), k).1 == CanDelete(d, k)
    ensures |e| == |d| && forall i :: 0 <= i < 9 ==> e[i] == d[i]
  {
    e := d;
    var rs := Records(d);
    if CanDelete(d, k) {
      assert rs[k] == Record(d, k);
      e := Deleted(d, k);
      DeletedSlots(d, e, k, k);
      forall i | 0 <= i < Count(e) ensures InBounds(e, i) { DeletedSlots(d, e, k, i); }
      var rs' := Records(e);
      forall i | 0 <= i < Count(e) ensures rs'[i] == rs[k := None][i] { DeletedSlots(d, e, k, i); }
      assert rs' == rs[k := None];
      if Built(d) { DeletedBuilt(d, k); }
    } else if k < Count(d) { assert rs[k] == Record(d, k); }
  }

  // ----- insertion that may compact first -----

  function CompactView(v: View): View {
    v.(upper := if RecordBytes(v.records) <= PAGE_SIZE then PAGE_SIZE - RecordBytes(v.records) else 0)
  }

  /** Everything the page must hold: header, directory, live records and the new record. */
  function Demand(v: View, r: Bytes): nat {
    HEADER_SIZE + SLOT_SIZE * |v.records| + RecordBytes(v.records) + |r| + SlotCost(v.records)
  }

  function InsertCompacting(v: View, r: Bytes): (View, Option<nat>) {
    if Fits(v, r) then Insert(v, r)
    else if Demand(v, r) <= PAGE_SIZE then Insert(CompactView(v), r)
    else (v, None)
  }

  /** What a page's reclaimable space amounts to, as insert_compacting computes it. */
  function Reclaimable(d: Bytes): nat
    requires Framed(d)
  {
    var used := PAGE_SIZE - Upper(d);
    if used >= LiveBytes(d, Count(d)) then used - LiveBytes(d, Count(d)) else 0
  }

  predicate WorthCompacting(d: Bytes, r: Bytes)
    requires Framed(d)
  {
    |r| < U16_LIMIT && Needed(d, r) <= FreeSpace(d) + Reclaimable(d)
  }

  /** Where compaction is worth its while it is safe: live records take up less than the record region. */
  lemma WorthIsSafe(d: Bytes, r: Bytes)
    requires Bounded(d) && WorthCompacting(d, r) && !HasRoom(d, r)
    ensures Compactable(d) && Cursor(d, Count(d)) >= 0
  {
    LastCursor(d);
  }

  function InsertedCompacting(d: Bytes, r: Bytes): (Bytes, Option<nat>)
    requires Bounded(d)
  {
    if HasRoom(d, r) then (Inserted(d, r), Some(SlotFor(d)))
    else if !WorthCompacting(d, r) then (d, None)
    else
      WorthIsSafe(d, r);
      var c := Compacted(d);
      if Framed(c) && HasRoom(c, r) then (Inserted(c, r), Some(SlotFor(c))) else (c, None)
  }

  /** The decision to compact is exact: it is taken if and only if the record then fits. */
  lemma WorthIsDemand(d: Bytes, r: Bytes)
    requires Bounded(d)
    ensures !HasRoom(d, r) ==> (WorthCompacting(d, r) <==> Demand(ViewOf(d), r) <= PAGE_SIZE)
    ensures Built(d) && HasRoom(d, r) ==> Demand(ViewOf(d), r) <= PAGE_SIZE
  {
    SlotForIsFree(d);
    var rs := Records(d);
    LiveBytesAreRecordBytes(d, rs, Count(d));
    assert rs[..Count(d)] == rs;
  }

  /**
  On every accepted page insert_compacting refines its specification, and never compacts a page
  on which that would fail. It returns a slot if and only if the record fits as the page is, or
  header, directory, live records and the new record fit into 4096 bytes; on a built page the
  second condition alone decides. None leaves every byte alone.
  */
  lemma InsertCompactingRefines(d: Bytes, r: Bytes) returns (e: Bytes, slot: Option<nat>)
    requires Bounded(d)
    ensures (e, slot) == InsertedCompacting(d, r) && Bounded(e) && (Built(d) ==> Built(e))
    ensures ViewOf(e) == InsertCompacting(ViewOf(d), r).0 && slot == InsertCompacting(ViewOf(d), r).1
    ensures slot.Some? <==> Fits(ViewOf(d), r) || Demand(ViewOf(d), r) <= PAGE_SIZE
    ensures Built(d) ==> (slot.Some? <==> Demand(ViewOf(d), r) <= PAGE_SIZE)
    ensures slot.None? ==> e == d
  {
    var v := ViewOf(d);
    var free := InsertRefines(d, r);
    WorthIsDemand(d, r);
    e, slot := free, if HasRoom(d, r) then Some(SlotFor(d)) else None;
    if !HasRoom(d, r) && WorthCompacting(d, r) {
      WorthIsSafe(d, r);
      var c := CompactRefines(d);
      assert ViewOf(c) == CompactView(v);
      e := InsertRefines(c, r);
      assert Fits(ViewOf(c), r);
      slot := Some(SlotFor(c));
    }
  }

  // ----- runs -----

  datatype Op = InsertOp(record: Bytes) | InsertCompactingOp(record: Bytes) | DeleteOp(slot: nat) | CompactOp

  /** One operation on the specification, and the change it reports: slot and new content. */
  function Apply(v: View, op: Op): (View, Option<(nat, Option<Bytes>)>) {
    match op
    case InsertOp(r) => (Insert(v, r).0, Written(Insert(v, r).1, r))
    case InsertCompactingOp(r) => (InsertCompacting(v, r).0, Written(InsertCompacting(v, r).1, r))
    case DeleteOp(k) => (Delete(v, k).0, if Delete(v, k).1 then Some((k, None)) else None)
    case CompactOp => (CompactView(v), None)
  }

  function Written(slot: Option<nat>, r: Bytes): Option<(nat, Option<Bytes>)> {
    if slot.Some? then Some((slot.value, Some(r))) else None
  }

  /** Compaction is for compactable pages; everything else can be done to every accepted page. */
  ghost predicate CanApply(d: Bytes, op: Op) {
    Bounded(d) && (op.CompactOp? ==> Compactable(d) && Cursor(d, Count(d)) >= 0)
  }

  /** One operation on the bytes. */
  ghost function ApplyBytes(d: Bytes, op: Op): Bytes
    requires CanApply(d, op)
  {
    match op
    case InsertOp(r) => if HasRoom(d, r) then Inserted(d, r) else d
    case InsertCompactingOp(r) => InsertedCompacting(d, r).0
    case DeleteOp(k) => if CanDelete(d, k) then Deleted(d, k) else d
    case CompactOp => Compacted(d)
  }

  lemma OpRefines(d: Bytes, op: Op) returns (e: Bytes)
    requires CanApply(d, op)
    ensures e == ApplyBytes(d, op) && Bounded(e) && (Built(d) ==> Built(e))
    ensures ViewOf(e) == Apply(ViewOf(d), op).0
  {
    match op
    case InsertOp(r) => e := InsertRefines(d, r);
    case InsertCompactingOp(r) =>
      var slot;
      e, slot := InsertCompactingRefines(d, r);
    case DeleteOp(k) => e := DeleteRefines(d, k);
    case CompactOp => e := CompactRefines(d);
  }

  function EmptyView(): View {
    View([], PAGE_SIZE)
  }

  function RunView(v: View, ops: seq<Op>): View {
    if ops == [] then v else Apply(RunView(v, ops[..|ops| - 1]), ops[|ops| - 1]).0
  }

  /** `d` is what `ops` make of the accepted page `start`. */
  ghost predicate Reaches(start: Bytes, ops: seq<Op>, d: Bytes)
    decreases |ops|
  {
    if ops == [] then d == start && Bounded(start)
    else exists before ::
        && Bounded(before) && Reaches(start, ops[..|ops| - 1], before)
        && CanApply(before, ops[|ops| - 1]) && d == ApplyBytes(before, ops[|ops| - 1])
  }

  function NewPage(pageNo: nat): (d: Bytes)
    requires pageNo < U32_LIMIT
  {
    Serialize(Header(pageNo, Data, 0, PAGE_SIZE, 0), seq(PAGE_SIZE, i => 0 as byte))
  }

  lemma NewPageIsEmpty(pageNo: nat)
    requires pageNo < U32_LIMIT
    ensures Built(NewPage(pageNo)) && ViewOf(NewPage(pageNo)) == EmptyView()
  {
    var h := Header(pageNo, Data, 0, PAGE_SIZE, 0);
    HeaderRoundTrip(h, seq(PAGE_SIZE, i => 0 as byte));
    var d := NewPage(pageNo);
    assert Deserialize(d).value == h;
    assert Count(d) == 0 && Upper(d) == PAGE_SIZE;
    assert Records(d) == [];
  }

  /** Every byte of a new page: the mark, the number, type 1, no records, a region that starts at 4096, then zeroes. */
  lemma NewPageBytes(pageNo: nat)
    requires pageNo < U32_LIMIT
    ensures var d := NewPage(pageNo);
            && |d| == 4096 && d[0] == 0x4F && d[1] == 0x4F && d[2] == 0x52 && d[3] == 0x31
            && d[4] as nat + 0x100 * (d[5] as nat) + 0x1_0000 * (d[6] as nat) + 0x100_0000 * (d[7] as nat) == pageNo
            && d[8] == 1 && d[9] == 0 && d[10] == 0 && d[11] == 0 && d[12] == 0x10
            && forall i :: 13 <= i < 4096 ==> d[i] == 0
  {
    var zeroes := seq(PAGE_SIZE, i => 0 as byte);
    WrittenByPosition(Header(pageNo, Data, 0, PAGE_SIZE, 0), zeroes);
    HeaderRoundTrip(Header(pageNo, Data, 0, PAGE_SIZE, 0), zeroes);
    var d := NewPage(pageNo);
    forall i | HEADER_SIZE <= i < 4096 ensures d[i] == 0 { assert d[HEADER_SIZE..][i - HEADER_SIZE] == zeroes[i]; }
  }

  /** Deletion marks the slot with offset 65535 and length 0, and touches no other byte. */
  lemma DeletedBytes(d: Bytes, k: nat)
    requires Bounded(d) && k < Count(d) && Record(d, k).Some?
    ensures CanDelete(d, k) && |Deleted(d, k)| == |d| == 4096 && 21 + 4 * k <= 4096
    ensures var e, b := Deleted(d, k), 17 + 4 * k;
            && e[b] == 0xFF && e[b + 1] == 0xFF && e[b + 2] == 0 && e[b + 3] == 0
            && forall i :: 0 <= i < 4096 && !(b <= i < b + 4) ==> e[i] == d[i]
  {
    var e, b := Deleted(d, k), SlotBase(k);
    assert Offset(e, k) == TOMBSTONE && Length(e, k) == 0;
  }

  /** The content that the run wrote to slot `k` last, or what it held before. */
  function LastStored(v: View, ops: seq<Op>, k: nat): Option<Bytes> {
    if ops == [] then Get(v, k)
    else
      var change := Apply(RunView(v, ops[..|ops| - 1]), ops[|ops| - 1]).1;
      if change.Some? && change.value.0 == k then change.value.1 else LastStored(v, ops[..|ops| - 1], k)
  }

  function Get(v: View, k: nat): Option<Bytes> {
    if k < |v.records| then v.records[k] else None
  }

  /** An operation changes the slot it reports and no other: live slot ids are stable. */
  lemma OnlyReportedSlotChanges(v: View, op: Op, k: nat)
    ensures var (v', change) := Apply(v, op);
            Get(v', k) == if change.Some? && change.value.0 == k then change.value.1 else Get(v, k)
  {
  }

  lemma {:induction false} GetIsLastStored(v: View, ops: seq<Op>, k: nat)
    ensures Get(RunView(v, ops), k) == LastStored(v, ops, k)
    decreases |ops|
  {
    if ops != [] {
      GetIsLastStored(v, ops[..|ops| - 1], k);
      OnlyReportedSlotChanges(RunView(v, ops[..|ops| - 1]), ops[|ops| - 1], k);
    }
  }

  /**
  Main result for pages: after any run of operations on an accepted page, slot `k` reads back
  exactly the record that the run stored there last, or else what it held before. A page that
  was built by the operations stays one.
  */
  lemma {:induction false} PageRefinesMap(start: Bytes, ops: seq<Op>, d: Bytes, k: nat)
    requires Reaches(start, ops, d)
    ensures Bounded(start) && Bounded(d) && ViewOf(d) == RunView(ViewOf(start), ops) && (Built(start) ==> Built(d))
    ensures (if k < Count(d) then Record(d, k) else None) == LastStored(ViewOf(start), ops, k)
    decreases |ops|
  {
    if ops != [] {
      var before :| Bounded(before) && Reaches(start, ops[..|ops| - 1], before) && CanApply(before, ops[|ops| - 1])
                    && d == ApplyBytes(before, ops[|ops| - 1]);
      PageRefinesMap(start, ops[..|ops| - 1], before, k);
      var e := OpRefines(before, ops[|ops| - 1]);
    }
    GetIsLastStored(ViewOf(start), ops, k);
    if k < Count(d) { assert Records(d)[k] == Record(d, k); }
  }

  // ----- reading a page back -----

  ghost predicate SameName(d: Bytes, e: Bytes) {
    |d| == |e| == PAGE_SIZE && forall i :: 0 <= i < 9 ==> e[i] == d[i]
  }

  lemma OpKeepsName(d: Bytes, op: Op)
    requires CanApply(d, op)
    ensures SameName(d, ApplyBytes(d, op))
  {
    match op
    case InsertOp(r) => if HasRoom(d, r) { InsertedBytes(d, r); }
    case InsertCompactingOp(r) =>
      if HasRoom(d, r) { InsertedBytes(d, r); }
      else if WorthCompacting(d, r) {
        WorthIsSafe(d, r);
        var c := CompactRefines(d);
        if HasRoom(c, r) { InsertedBytes(c, r); }
      }
    case DeleteOp(k) => var e := DeleteRefines(d, k);
    case CompactOp => var e := CompactRefines(d);
  }

  lemma {:induction false} PageKeepsName(start: Bytes, ops: seq<Op>, d: Bytes, pageNo: nat)
    requires Reaches(start, ops, d) && IsDataPage(start, pageNo)
    ensures IsDataPage(d, pageNo)
    decreases |ops|
  {
    if ops != [] {
      var before :| Bounded(before) && Reaches(start, ops[..|ops| - 1], before) && CanApply(before, ops[|ops| - 1])
                    && d == ApplyBytes(before, ops[|ops| - 1]);
      PageKeepsName(start, ops[..|ops| - 1], before, pageNo);
      OpKeepsName(before, ops[|ops| - 1]);
      StaysDataPage(before, d, pageNo);
    }
  }

  /** Whatever is done to a new page, its bytes are accepted again under its page number, and no other. */
  lemma PageReadsBack(ops: seq<Op>, pageNo: nat, d: Bytes, asked: nat)
    requires pageNo < U32_LIMIT && Reaches(NewPage(pageNo), ops, d)
    ensures Built(d) && (IsDataPage(d, asked) <==> asked == pageNo)
  {
    NewPageIsEmpty(pageNo);
    HeaderRoundTrip(Header(pageNo, Data, 0, PAGE_SIZE, 0), seq(PAGE_SIZE, i => 0 as byte));
    PageRefinesMap(NewPage(pageNo), ops, d, 0);
    PageKeepsName(NewPage(pageNo), ops, d, pageNo);
  }

  // ----- an accepted page on which compaction fails -----

  /** Data page `pageNo` with two slots that both point to the same 4000 bytes. */
  function CrowdedPage(pageNo: nat): (d: Bytes)
    requires pageNo < U32_LIMIT
    ensures |d| == PAGE_SIZE
  {
    PutSlot(PutSlot(Put16(Put16(NewPage(pageNo), 9, 2), 11, 96), 0, 96, 4000), 1, 96, 4000)
  }

  /** It is accepted when it is read back, but compacting it takes the cursor below zero. */
  lemma CrowdedPageIsAccepted(pageNo: nat)
    requires pageNo < U32_LIMIT
    ensures var d := CrowdedPage(pageNo);
            IsDataPage(d, pageNo) && Bounded(d) && !Compactable(d) && Count(d) == 2 && Cursor(d, 2) == -3904
  {
    var n := NewPage(pageNo);
    var d := CrowdedPage(pageNo);
    NewPageIsEmpty(pageNo);
    HeaderRoundTrip(Header(pageNo, Data, 0, PAGE_SIZE, 0), seq(PAGE_SIZE, i => 0 as byte));
    StaysDataPage(n, d, pageNo);
    assert Count(d) == 2 && Upper(d) == 96;
    assert Offset(d, 0) == 96 && Length(d, 0) == 4000 && Offset(d, 1) == 96 && Length(d, 1) == 4000;
    assert InBounds(d, 0) && InBounds(d, 1);
    LastCursor(d);
    assert LiveBytes(d, 1) == 4000;
  }
}
