/** The page object: a 4096-byte array that the operations update in place. */
module SlottedPage {
  import opened Storage
  import opened PageLayout
  import opened PageHeader
  import opened PageInsert
  import opened PageCompact
  import opened PageRuns

  class Page {
    const data: array<byte>

    /** The bytes are an accepted page. */
    ghost predicate Valid()
      reads data
    {
      data.Length == PAGE_SIZE && Bounded(data[..])
    }

    ghost function View(): View
      requires Valid()
      reads data
    {
      ViewOf(data[..])
    }

    constructor (pageNo: nat)
      requires pageNo < U32_LIMIT
      ensures Valid() && fresh(data) && data[..] == NewPage(pageNo) && View() == EmptyView() && Built(data[..])
    {
      var bytes := new byte[PAGE_SIZE](i => 0 as byte);
      data := bytes;
      new;
      var image := Serialize(Header(pageNo, Data, 0, PAGE_SIZE, 0), data[..]);
      assert data[..] == seq(PAGE_SIZE, i => 0 as byte);
      forall i | 0 <= i < PAGE_SIZE { data[i] := image[i]; }
      assert data[..] == image;
      NewPageIsEmpty(pageNo);
    }

    /** A page read back from `bytes`; only well-formed data pages with the expected number are accepted. */
    static method FromBytes(bytes: Bytes, expectedPageNo: nat) returns (page: Page?)
      requires |bytes| == PAGE_SIZE
      ensures page != null <==> IsDataPage(bytes, expectedPageNo) && Bounded(bytes)
      ensures page != null ==> fresh(page) && fresh(page.data) && page.data[..] == bytes && page.Valid()
    {
      var header := Deserialize(bytes);
      if header.None? { return null; }
      var h := header.value;
      var lower := HEADER_SIZE + h.recordCount * SLOT_SIZE;
      var upper := h.freeSpaceOffset;
      if h.pageNo != expectedPageNo || h.pageType != Data || lower > upper || upper > PAGE_SIZE { return null; }
      for k := 0 to h.recordCount
        invariant forall i :: 0 <= i < k ==> InBounds(bytes, i)
      {
        var offset, length := Offset(bytes, k), Length(bytes, k);
        if offset != TOMBSTONE && (offset < upper || offset + length > PAGE_SIZE) {
          assert !InBounds(bytes, k);
          return null;
        }
      }
      page := new Page.Of(bytes);
    }

    constructor Of(bytes: Bytes)
      requires |bytes| == PAGE_SIZE
      ensures fresh(data) && data[..] == bytes
    {
      data := new byte[PAGE_SIZE](i requires 0 <= i < PAGE_SIZE => bytes[i]);
      new;
      assert data[..] == bytes;
    }

    method WriteU16(i: nat, v: nat)
      requires i + 2 <= data.Length && v < U16_LIMIT
      modifies data
      ensures data[..] == Put16(old(data[..]), i, v)
    {
      data[i], data[i + 1] := (v % 0x100) as byte, (v / 0x100) as byte;
    }

    method WriteSlot(k: nat, offset: nat, length: nat)
      requires data.Length == PAGE_SIZE && SlotBase(k + 1) <= PAGE_SIZE && offset < U16_LIMIT && length < U16_LIMIT
      modifies data
      ensures data[..] == PutSlot(old(data[..]), k, offset, length)
    {
      WriteU16(SlotBase(k), offset);
      WriteU16(SlotBase(k) + 2, length);
    }

    method CopyIn(at: nat, record: Bytes)
      requires at + |record| <= data.Length
      modifies data
      ensures data[..] == PutBytes(old(data[..]), at, record)
    {
      forall i | at <= i < at + |record| { data[i] := record[i - at]; }
    }

    /** Copy the record in and let slot `k` point to it. */
    method PlaceAt(k: nat, at: nat, record: Bytes)
      requires data.Length == PAGE_SIZE && SlotBase(k + 1) <= PAGE_SIZE && at + |record| <= PAGE_SIZE
      modifies data
      ensures data[..] == Place(old(data[..]), k, at, record)
    {
      CopyIn(at, record);
      WriteSlot(k, at, |record|);
    }

    /** The first tombstone of the directory, if there is one. */
    method FindFree() returns (slot: Option<nat>)
      requires data.Length == PAGE_SIZE && Framed(data[..])
      ensures slot == FindTombstone(data[..], 0)
    {
      var count := U16(data[..], 9);
      var k := 0;
      while k < count
        invariant 0 <= k <= count
        invariant FindTombstone(data[..], k) == FindTombstone(data[..], 0)
      {
        if Offset(data[..], k) == TOMBSTONE { return Some(k); }
        k := k + 1;
      }
      return None;
    }

    /** Store a record; None when the contiguous free space is too small. */
    method Insert(record: Bytes) returns (slot: Option<nat>)
      requires Valid()
      modifies data
      ensures Valid() && View() == PageInsert.Insert(old(View()), record).0
      ensures slot == PageInsert.Insert(old(View()), record).1
      ensures data[..] == if slot.Some? then Inserted(old(data[..]), record) else old(data[..])
      ensures slot.Some? <==> HasRoom(old(data[..]), record)
      ensures slot.Some? ==> slot.value == SlotFor(old(data[..]))
      ensures Built(old(data[..])) ==> Built(data[..])
    {
      ghost var after := InsertRefines(data[..], record);
      if |record| > 0xFFFF { return None; }
      var count := U16(data[..], 9);
      var reused := FindFree();
      var needed := |record| + if reused.Some? then 0 else SLOT_SIZE;
      if FreeSpace(data[..]) < needed { return None; }
      var k := if reused.Some? then reused.value else count;
      Store(k, record);
      slot := Some(k);
    }

    /** Take slot `k`, adding it to the directory if it is new, and put the record below the others. */
    method Store(k: nat, record: Bytes)
      requires data.Length == PAGE_SIZE && Framed(data[..]) && HasRoom(data[..], record) && k == SlotFor(data[..])
      modifies data
      ensures data[..] == Inserted(old(data[..]), record)
    {
      GrownUpper(data[..]);
      Claim(k);
      PutRecord(k, U16(data[..], 11) - |record|, record);
    }

    /** Add slot `k` to the directory if it is new. */
    method Claim(k: nat)
      requires data.Length == PAGE_SIZE && Framed(data[..]) && k == SlotFor(data[..])
      requires k + 1 < U16_LIMIT
      modifies data
      ensures data[..] == Grown(old(data[..]))
    {
      var count := U16(data[..], 9);
      if k == count { WriteU16(9, count + 1); }
    }

    /** The record goes to `at`, slot `k` points to it, and the record region now starts there. */
    method PutRecord(k: nat, at: nat, record: Bytes)
      requires data.Length == PAGE_SIZE && SlotBase(k + 1) <= at && at + |record| <= PAGE_SIZE
      modifies data
      ensures data[..] == Put16(Place(old(data[..]), k, at, record), 11, at)
    {
      PlaceAt(k, at, record);
      WriteU16(11, at);
    }

    /** Bytes of the live records. */
    method SumLive() returns (total: nat)
      requires data.Length == PAGE_SIZE && Framed(data[..])
      ensures total == LiveBytes(data[..], Count(data[..]))
    {
      total := 0;
      for k := 0 to U16(data[..], 9)
        invariant total == LiveBytes(data[..], k)
      {
        if Offset(data[..], k) != TOMBSTONE { total := total + Length(data[..], k); }
      }
    }

    /** Store a record, compacting first when that is what it takes. */
    method InsertCompacting(record: Bytes) returns (slot: Option<nat>)
      requires Valid()
      modifies data
      ensures Valid() && View() == PageRuns.InsertCompacting(old(View()), record).0
      ensures slot.Some? <==> Fits(old(View()), record) || Demand(old(View()), record) <= PAGE_SIZE
      ensures Built(old(data[..])) ==> Built(data[..]) && (slot.Some? <==> Demand(old(View()), record) <= PAGE_SIZE)
      ensures slot == PageRuns.InsertCompacting(old(View()), record).1
      ensures (data[..], slot) == InsertedCompacting(old(data[..]), record)
      ensures HasRoom(old(data[..]), record) ==> data[..] == Inserted(old(data[..]), record)
      ensures slot.None? ==> data[..] == old(data[..])
    {
      ghost var before := data[..];
      ghost var after, result := InsertCompactingRefines(before, record);
      slot := Insert(record);
      if slot.Some? { return; }
      var worth := CompactingHelps(record);
      if !worth { return; }
      WorthIsSafe(before, record);
      var compacted := Compact();
      assert compacted;
      slot := Insert(record);
    }

    /** Would the record fit into the space that compaction leaves? */
    method CompactingHelps(record: Bytes) returns (worth: bool)
      requires data.Length == PAGE_SIZE && Framed(data[..])
      ensures worth <==> WorthCompacting(data[..], record)
    {
      if |record| > 0xFFFF { return false; }
      var reused := FindFree();
      var needed := |record| + if reused.Some? then 0 else SLOT_SIZE;
      var live := SumLive();
      var used := PAGE_SIZE - U16(data[..], 11);
      var reclaimable := if used >= live then used - live else 0;
      worth := FreeSpace(data[..]) + reclaimable >= needed;
    }

    method Get(k: nat) returns (record: Option<Bytes>)
      requires Valid()
      ensures record == if k < Count(data[..]) then Record(data[..], k) else None
    {
      if k >= U16(data[..], 9) { return None; }
      var offset, length := Offset(data[..], k), Length(data[..], k);
      if offset == TOMBSTONE { return None; }
      assert InBounds(data[..], k);
      return Some(data[offset..offset + length]);
    }

    method Delete(k: nat) returns (deleted: bool)
      requires Valid()
      modifies data
      ensures Valid() && View() == PageRuns.Delete(old(View()), k).0
      ensures deleted == PageRuns.Delete(old(View()), k).1 == CanDelete(old(data[..]), k)
      ensures data[..] == if deleted then Deleted(old(data[..]), k) else old(data[..])
      ensures Built(old(data[..])) ==> Built(data[..])
    {
      ghost var after := DeleteRefines(data[..], k);
      if k >= U16(data[..], 9) { return false; }
      if Offset(data[..], k) == TOMBSTONE { return false; }
      WriteSlot(k, TOMBSTONE, 0);
      return true;
    }

    /** Slot and bytes of every live record, copied out before anything moves. */
    method CollectLive() returns (live: seq<(nat, Bytes)>)
      requires Valid()
      ensures live == LiveRecords(data[..], Count(data[..]))
    {
      live := [];
      for k := 0 to U16(data[..], 9)
        invariant live == LiveRecords(data[..], k)
      {
        var offset, length := Offset(data[..], k), Length(data[..], k);
        assert InBounds(data[..], k);
        if offset != TOMBSTONE { live := live + [(k, data[offset..offset + length])]; }
      }
    }

    /** Rewrite the collected records one below the other from the end of the page, while the cursor lasts. */
    method Rewrite(live: seq<(nat, Bytes)>) returns (ok: bool, cursor: nat)
      requires Valid() && live == LiveRecords(data[..], Count(data[..]))
      modifies data
      ensures ok <==> Cursor(old(data[..]), Count(old(data[..]))) >= 0
      ensures ok ==> data[..] == Slid(old(data[..]), Count(old(data[..])))
                     && cursor == Cursor(old(data[..]), Count(old(data[..])))
    {
      ghost var before := data[..];
      cursor := PAGE_SIZE;
      ghost var done := 0;
      for m := 0 to |live|
        invariant Rewritten(before, live, m, done, data[..], cursor)
      {
        NextLive(before, live, done, m);
        if cursor < |live[m].1| {
          SlidNext(before, live[m].0);
          CursorFalls(before, live[m].0 + 1, Count(before));
          return false, cursor;
        }
        cursor, done := RewriteOne(before, live, m, done, cursor);
      }
      RestIsDead(before, done);
      ok := true;
    }

    /** Move the next collected record to just below `cursor`. */
    method RewriteOne(ghost d: Bytes, live: seq<(nat, Bytes)>, m: nat, ghost done: nat, cursor: nat)
      returns (at: nat, ghost next: nat)
      requires Bounded(d) && live == LiveRecords(d, Count(d)) && m < |live| && |live[m].1| <= cursor
      requires data.Length == PAGE_SIZE && Rewritten(d, live, m, done, data[..], cursor)
      modifies data
      ensures Rewritten(d, live, m + 1, next, data[..], at)
    {
      var (k, record) := live[m];
      RewriteNext(d, live, m, done, data[..], cursor);
      at, next := cursor - |record|, k + 1;
      PlaceAt(k, at, record);
    }

    /**
    Slide the live records to the end of the page, in slot order. This works if and only if they fit
    into the page (if not, the cursor would fall below zero, and the operation panics half way), and
    it leaves a page that is accepted again if and only if they fit behind the directory.
    */
    method Compact() returns (ok: bool)
      requires Valid()
      modifies data
      ensures ok <==> RecordBytes(old(View()).records) <= PAGE_SIZE
      ensures ok <==> Cursor(old(data[..]), Count(old(data[..]))) >= 0
      ensures ok ==> data[..] == Compacted(old(data[..])) && (Framed(data[..]) <==> old(Compactable(data[..])))
      ensures old(Compactable(data[..])) ==> ok && Valid() && Built(data[..]) && View() == CompactView(old(View()))
    {
      ghost var before := data[..];
      CompactedExactly(before);
      LastCursor(before);
      CompactedView(before);
      var live := CollectLive();
      var cursor;
      ok, cursor := Rewrite(live);
      if ok { WriteU16(11, cursor); }
    }

    /** The bytes handed to the buffer pool. */
    method CopyTo(dest: array<byte>)
      requires Valid() && dest.Length == PAGE_SIZE
      modifies dest
      ensures dest[..] == old(data[..])
    {
      forall i | 0 <= i < PAGE_SIZE { dest[i] := data[i]; }
    }
  }

  lemma GrownUpper(d: Bytes)
    requires Framed(d)
    ensures Upper(Grown(d)) == Upper(d)
  {
  }

  // ----- the list that compaction collects -----

  /** Compaction on views, where it works. */
  lemma CompactedView(d: Bytes)
    requires Bounded(d)
    ensures Compactable(d) ==> Cursor(d, Count(d)) >= 0 && Built(Compacted(d))
                               && ViewOf(Compacted(d)) == CompactView(ViewOf(d))
  {
    if Compactable(d) { var e := CompactRefines(d); }
  }

  lemma SlidNext(d: Bytes, k: nat)
    requires Bounded(d) && k < Count(d) && Live(d, k)
    ensures InBounds(d, k) && SlotBase(k + 1) <= PAGE_SIZE
    ensures Cursor(d, k + 1) == Cursor(d, k) - Length(d, k)
    ensures Cursor(d, k + 1) >= 0 ==>
              Cursor(d, k) <= PAGE_SIZE && Slid(d, k + 1) == Place(Slid(d, k), k, Cursor(d, k + 1), Record(d, k).value)
  {
    CursorFalls(d, 0, k);
    assert InBounds(d, k);
  }

  /** Slot and bytes of every live record among the first `n` slots. */
  function LiveRecords(d: Bytes, n: nat): (live: seq<(nat, Bytes)>)
    requires Bounded(d) && n <= Count(d)
    ensures |live| <= n
  {
    if n == 0 then []
    else
      assert InBounds(d, n - 1);
      LiveRecords(d, n - 1) + if Live(d, n - 1) then [(n - 1, Record(d, n - 1).value)] else []
  }

  /** The first `m` collected records, those of the slots below `done`, have been moved. */
  ghost predicate Rewritten(d: Bytes, live: seq<(nat, Bytes)>, m: nat, done: nat, image: Bytes, cursor: nat)
    requires Bounded(d)
  {
    && m <= |live| && done <= Count(d) && LiveRecords(d, done) == live[..m] && Cursor(d, done) >= 0
    && image == Slid(d, done) && cursor == Cursor(d, done)
  }

  lemma RewriteNext(d: Bytes, live: seq<(nat, Bytes)>, m: nat, done: nat, image: Bytes, cursor: nat)
    requires Bounded(d) && live == LiveRecords(d, Count(d)) && m < |live|
    requires Rewritten(d, live, m, done, image, cursor) && |live[m].1| <= cursor
    ensures var (k, record) := live[m];
            && cursor <= PAGE_SIZE == |image| && SlotBase(k + 1) <= PAGE_SIZE
            && Rewritten(d, live, m + 1, k + 1, Place(image, k, cursor - |record|, record), cursor - |record|)
  {
    NextLive(d, live, done, m);
    PlacesRecord(d, live, m, image, cursor);
  }

  lemma PlacesRecord(d: Bytes, live: seq<(nat, Bytes)>, m: nat, image: Bytes, cursor: nat)
    requires Bounded(d) && m < |live| && live[m].0 < Count(d) && Live(d, live[m].0) && InBounds(d, live[m].0)
    requires Record(d, live[m].0) == Some(live[m].1) && LiveRecords(d, live[m].0 + 1) == live[..m + 1]
    requires Cursor(d, live[m].0) == cursor && image == Slid(d, live[m].0) && |live[m].1| <= cursor
    ensures var (k, record) := live[m];
            && cursor <= PAGE_SIZE == |image| && SlotBase(k + 1) <= PAGE_SIZE
            && Rewritten(d, live, m + 1, k + 1, Place(image, k, cursor - |record|, record), cursor - |record|)
  {
    SlidNext(d, live[m].0);
  }

  /** The record collected after the first `m` belongs to the next live slot from `n` on. */
  lemma {:induction false} NextLive(d: Bytes, live: seq<(nat, Bytes)>, n: nat, m: nat)
    requires Bounded(d) && live == LiveRecords(d, Count(d))
    requires n <= Count(d) && m < |live| && LiveRecords(d, n) == live[..m] && Cursor(d, n) >= 0
    ensures n <= live[m].0 < Count(d) && Live(d, live[m].0) && InBounds(d, live[m].0)
    ensures Record(d, live[m].0) == Some(live[m].1)
    ensures LiveRecords(d, live[m].0 + 1) == live[..m + 1]
    ensures Cursor(d, live[m].0) == Cursor(d, n) && Slid(d, live[m].0) == Slid(d, n)
    decreases Count(d) - n
  {
    assert n < Count(d) by { if n == Count(d) { assert |live[..m]| == m; } }
    if Live(d, n) { NextIsHere(d, live, n, m); } else { NextLive(d, live, n + 1, m); }
  }

  lemma NextIsHere(d: Bytes, live: seq<(nat, Bytes)>, n: nat, m: nat)
    requires Bounded(d) && live == LiveRecords(d, Count(d))
    requires n < Count(d) && m < |live| && LiveRecords(d, n) == live[..m] && Live(d, n)
    ensures InBounds(d, n) && live[m] == (n, Record(d, n).value) && LiveRecords(d, n + 1) == live[..m + 1]
  {
    assert InBounds(d, n);
    LivePrefix(d, n + 1);
    assert LiveRecords(d, n + 1) == live[..m] + [(n, Record(d, n).value)];
    assert live[m] == LiveRecords(d, n + 1)[m];
  }

  lemma {:induction false} LivePrefix(d: Bytes, n: nat)
    requires Bounded(d) && n <= Count(d)
    ensures |LiveRecords(d, n)| <= |LiveRecords(d, Count(d))|
    ensures LiveRecords(d, n) == LiveRecords(d, Count(d))[..|LiveRecords(d, n)|]
    decreases Count(d) - n
  {
    if n < Count(d) { LivePrefix(d, n + 1); }
  }

  lemma {:induction false} RestIsDead(d: Bytes, n: nat)
    requires Bounded(d) && n <= Count(d) && LiveRecords(d, n) == LiveRecords(d, Count(d)) && Cursor(d, n) >= 0
    ensures Cursor(d, n) == Cursor(d, Count(d)) && Slid(d, n) == Slid(d, Count(d))
    decreases Count(d) - n
  {
    if n < Count(d) {
      LivePrefix(d, n + 1);
      RestIsDead(d, n + 1);
    }
  }
}
