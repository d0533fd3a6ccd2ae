/** Compaction of a slotted page: what it preserves, how much space it frees, and that it is idempotent. */
module PageCompact {
  import opened Storage
  import opened PageLayout

  /** Where record `n - 1` starts once the first `n` slots' live records are packed against the page's end. */
  function Cursor(d: Bytes, n: nat): int
    requires Framed(d) && n <= Count(d)
  {
    PAGE_SIZE - LiveBytes(d, n)
  }

  lemma {:induction false} CursorFalls(d: Bytes, m: nat, n: nat)
    requires Framed(d) && m <= n <= Count(d)
    ensures Cursor(d, n) <= Cursor(d, m) <= PAGE_SIZE
    decreases n - m
  {
    if m < n { CursorFalls(d, m, n - 1); }
  }

  lemma LastCursor(d: Bytes)
    requires Bounded(d)
    ensures Cursor(d, Count(d)) == PAGE_SIZE - RecordBytes(Records(d))
  {
    var rs := Records(d);
    LiveBytesAreRecordBytes(d, rs, Count(d));
    assert rs[..Count(d)] == rs;
  }

  lemma CursorStaysAbove(d: Bytes, n: nat)
    requires Compactable(d) && n <= Count(d)
    ensures Lower(d) <= Cursor(d, n)
    ensures Cursor(d, Count(d)) == PAGE_SIZE - RecordBytes(Records(d))
  {
    LastCursor(d);
    CursorFalls(d, n, Count(d));
  }

  /** A page is compactable exactly if no record is ever moved into the directory. */
  lemma CompactableExactly(d: Bytes)
    requires Bounded(d)
    ensures Compactable(d) <==> forall n :: 0 <= n <= Count(d) ==> Lower(d) <= Cursor(d, n)
  {
    LastCursor(d);
    if Compactable(d) {
      forall n | 0 <= n <= Count(d) ensures Lower(d) <= Cursor(d, n) { CursorStaysAbove(d, n); }
    }
  }

  /** The page after the live records of the first `n` slots have been rewritten. */
  function Slid(d: Bytes, n: nat): (e: Bytes)
    requires Bounded(d) && n <= Count(d) && Cursor(d, n) >= 0
    ensures |e| == PAGE_SIZE
  {
    if n == 0 then d
    else if !Live(d, n - 1) then Slid(d, n - 1)
    else
      CursorFalls(d, n - 1, n);
      assert InBounds(d, n - 1);
      Place(Slid(d, n - 1), n - 1, Cursor(d, n), Record(d, n - 1).value)
  }

  function Compacted(d: Bytes): (e: Bytes)
    requires Bounded(d) && Cursor(d, Count(d)) >= 0
    ensures |e| == PAGE_SIZE
  {
    CursorFalls(d, 0, Count(d));
    Put16(Slid(d, Count(d)), 11, Cursor(d, Count(d)))
  }

  // ----- what sliding does to the bytes -----

  /** Slot `k` of `e` holds the record of slot `k` of `d`, moved to its packed place. */
  ghost predicate Moved(d: Bytes, e: Bytes, k: nat)
    requires Framed(d) && k < Count(d) && |e| == PAGE_SIZE
  {
    Live(d, k) ==>
      && Offset(e, k) == Cursor(d, k + 1) && Length(e, k) == Length(d, k)
      && Offset(d, k) + Length(d, k) <= PAGE_SIZE
      && 0 <= Cursor(d, k + 1) <= Cursor(d, k + 1) + Length(d, k) <= PAGE_SIZE
      && e[Cursor(d, k + 1)..Cursor(d, k + 1) + Length(d, k)] == d[Offset(d, k)..Offset(d, k) + Length(d, k)]
  }

  ghost predicate SameSlot(d: Bytes, e: Bytes, k: nat)
    requires |d| == |e| == PAGE_SIZE && SlotBase(k + 1) <= PAGE_SIZE
  {
    forall i :: SlotBase(k) <= i < SlotBase(k + 1) ==> e[i] == d[i]
  }

  ghost predicate SlidTo(d: Bytes, e: Bytes, n: nat) {
    && Framed(d) && |e| == PAGE_SIZE && n <= Count(d)
    && (forall i :: 0 <= i < HEADER_SIZE ==> e[i] == d[i])
    && (forall k :: 0 <= k < Count(d) && (n <= k || !Live(d, k)) ==> SameSlot(d, e, k))
    && (forall k :: 0 <= k < n ==> Moved(d, e, k))
    && (forall i :: Lower(d) <= i < Cursor(d, n) ==> e[i] == d[i])
  }

  lemma SlidStep(d: Bytes, n: nat)
    requires Compactable(d) && 0 < n <= Count(d)
    ensures InBounds(d, n - 1) && Lower(d) <= Cursor(d, n) <= Cursor(d, n - 1)
    ensures if Live(d, n - 1) then Placed(Slid(d, n - 1), Slid(d, n), n - 1, Cursor(d, n), Record(d, n - 1).value)
            else Slid(d, n) == Slid(d, n - 1)
  {
    CursorStaysAbove(d, n);
    CursorFalls(d, n - 1, n);
    assert InBounds(d, n - 1);
  }

  lemma SlideNext(d: Bytes, before: Bytes, n: nat)
    requires Compactable(d) && 0 < n <= Count(d) && Cursor(d, n) >= 0 && Cursor(d, n - 1) >= 0
    requires before == Slid(d, n - 1) && SlidTo(d, before, n - 1)
    ensures SlidTo(d, Slid(d, n), n)
  {
    SlidStep(d, n);
    if Live(d, n - 1) { PlaceNext(d, before, n, Slid(d, n)); } else { SkipDead(d, before, n); }
  }

  lemma {:induction false} SlidIsSlidTo(d: Bytes, n: nat) returns (e: Bytes)
    requires Compactable(d) && n <= Count(d)
    ensures Cursor(d, n) >= 0 && e == Slid(d, n) && SlidTo(d, e, n)
    decreases n
  {
    CursorStaysAbove(d, n);
    e := Slid(d, n);
    if n > 0 {
      var before := SlidIsSlidTo(d, n - 1);
      SlideNext(d, before, n);
    }
  }

  lemma SkipDead(d: Bytes, e: Bytes, n: nat)
    requires Framed(d) && 0 < n <= Count(d) && SlidTo(d, e, n - 1) && !Live(d, n - 1)
    ensures SlidTo(d, e, n)
  {
    assert Cursor(d, n) == Cursor(d, n - 1);
  }

  /** `e'` is `e` with the record of slot `n - 1` placed next. */
  ghost predicate PlacesNext(d: Bytes, e: Bytes, n: nat, e': Bytes) {
    && Compactable(d) && 0 < n <= Count(d) && SlidTo(d, e, n - 1) && Live(d, n - 1) && InBounds(d, n - 1)
    && Lower(d) <= Cursor(d, n) && Placed(e, e', n - 1, Cursor(d, n), Record(d, n - 1).value)
  }

  lemma PlaceNext(d: Bytes, e: Bytes, n: nat, e': Bytes)
    requires PlacesNext(d, e, n, e')
    ensures SlidTo(d, e', n)
  {
    forall k | 0 <= k < Count(d) && (n <= k || !Live(d, k)) ensures SameSlot(d, e', k) {
      PlaceKeepsSlot(d, e, n, e', k);
    }
    forall k | 0 <= k < n ensures Moved(d, e', k) { PlaceKeepsMoved(d, e, n, e', k); }
  }

  lemma PlaceKeepsSlot(d: Bytes, e: Bytes, n: nat, e': Bytes, k: nat)
    requires PlacesNext(d, e, n, e') && k < Count(d) && (n <= k || !Live(d, k))
    ensures SameSlot(d, e', k)
  {
    assert SameSlot(d, e, k);
  }

  lemma PlaceKeepsMoved(d: Bytes, e: Bytes, n: nat, e': Bytes, k: nat)
    requires PlacesNext(d, e, n, e') && k < n
    ensures Moved(d, e', k)
  {
    if k < n - 1 {
      PlaceKeepsEarlier(d, e, n, e', k);
    } else {
      assert e'[Cursor(d, n)..Cursor(d, n) + Length(d, k)] == Record(d, k).value;
    }
  }

  lemma PlaceKeepsEarlier(d: Bytes, e: Bytes, n: nat, e': Bytes, k: nat)
    requires PlacesNext(d, e, n, e') && k < n - 1
    ensures Moved(d, e', k)
  {
    assert Moved(d, e, k);
    CursorFalls(d, k + 1, n - 1);
    assert |Record(d, n - 1).value| == Length(d, n - 1);
    PlaceKeepsBytes(d, e, n, e', k);
    StillMoved(d, e, e', k);
  }

  lemma PlaceKeepsBytes(d: Bytes, e: Bytes, n: nat, e': Bytes, k: nat)
    requires Framed(d) && k < n - 1 && n <= Count(d) && Lower(d) <= Cursor(d, n)
    requires Live(d, n - 1) && Cursor(d, n - 1) <= Cursor(d, k + 1)
    requires exists r: Bytes :: |r| == Length(d, n - 1) && Placed(e, e', n - 1, Cursor(d, n), r)
    ensures SameSlot(e, e', k)
    ensures forall i :: Cursor(d, k + 1) <= i < PAGE_SIZE ==> e'[i] == e[i]
  {
    assert Cursor(d, n) + Length(d, n - 1) == Cursor(d, n - 1);
  }

  /** A record that has been moved stays where it is when slot and bytes are left alone. */
  lemma StillMoved(d: Bytes, e: Bytes, e': Bytes, k: nat)
    requires Framed(d) && k < Count(d) && |e| == |e'| == PAGE_SIZE && Moved(d, e, k)
    requires Live(d, k) ==> SameSlot(e, e', k)
    requires Live(d, k) ==> forall i :: Cursor(d, k + 1) <= i < Cursor(d, k + 1) + Length(d, k) ==> e'[i] == e[i]
    ensures Moved(d, e', k)
  {
    if Live(d, k) {
      var c, l := Cursor(d, k + 1), Length(d, k);
      assert e'[c..c + l] == e[c..c + l];
    }
  }

  // ----- compaction on records -----

  /** `e` is the compacted form of `d`. */
  ghost predicate CompactedTo(d: Bytes, e: Bytes) {
    && Compactable(d) && |e| == PAGE_SIZE && Count(e) == Count(d) && Upper(e) == Cursor(d, Count(d))
    && (forall i :: 0 <= i < HEADER_SIZE && !(11 <= i < 13) ==> e[i] == d[i])
    && (forall k :: 0 <= k < Count(d) && !Live(d, k) ==> SameSlot(d, e, k))
    && (forall k :: 0 <= k < Count(d) ==> Moved(d, e, k))
    && (forall i :: Lower(d) <= i < Upper(e) ==> e[i] == d[i])
  }

  lemma CompactedBytes(d: Bytes) returns (e: Bytes)
    requires Compactable(d)
    ensures Cursor(d, Count(d)) >= 0 && e == Compacted(d) && CompactedTo(d, e)
  {
    var slid := SlidIsSlidTo(d, Count(d));
    CursorStaysAbove(d, Count(d));
    e := Put16(slid, 11, Cursor(d, Count(d)));
    SealedIsCompacted(d, slid, e);
  }

  /** Only the header's offset changes once everything has been moved. */
  lemma SealedIsCompacted(d: Bytes, slid: Bytes, e: Bytes)
    requires Compactable(d) && SlidTo(d, slid, Count(d)) && |e| == PAGE_SIZE && Upper(e) == Cursor(d, Count(d))
    requires forall i :: 0 <= i < PAGE_SIZE && !(11 <= i < 13) ==> e[i] == slid[i]
    ensures CompactedTo(d, e)
  {
    var n := Count(d);
    CursorStaysAbove(d, n);
    forall k | 0 <= k < n && !Live(d, k) ensures SameSlot(d, e, k) { assert SameSlot(d, slid, k); }
    forall k | 0 <= k < n ensures Moved(d, e, k) { SealedSlot(d, slid, e, k); }
  }

  lemma SealedSlot(d: Bytes, slid: Bytes, e: Bytes, k: nat)
    requires Framed(d) && k < Count(d) && |slid| == |e| == PAGE_SIZE && Moved(d, slid, k)
    requires Lower(d) <= Cursor(d, Count(d))
    requires forall i :: 0 <= i < PAGE_SIZE && !(11 <= i < 13) ==> e[i] == slid[i]
    ensures Moved(d, e, k)
  {
    CursorFalls(d, k + 1, Count(d));
    StillMoved(d, slid, e, k);
  }

  lemma CompactedSlot(d: Bytes, e: Bytes, k: nat)
    requires CompactedTo(d, e) && k < Count(d)
    ensures Framed(e) && InBounds(e, k) && InBounds(d, k)
    ensures Live(e, k) <==> Live(d, k)
    ensures Live(d, k) ==> Offset(e, k) == Cursor(d, k + 1) && Length(e, k) == Length(d, k)
                           && Cursor(d, k) == Cursor(d, k + 1) + Length(d, k)
    ensures Record(e, k) == Record(d, k)
  {
    CursorStaysAbove(d, Count(d));
    CursorFalls(d, k + 1, Count(d));
    assert Moved(d, e, k);
    assert InBounds(d, k);
    if Live(d, k) {
      assert Record(e, k).value == Record(d, k).value;
    } else {
      assert SameSlot(d, e, k);
    }
  }

  lemma CompactedApart(d: Bytes, e: Bytes, j: nat, k: nat)
    requires CompactedTo(d, e) && j < k < Count(d)
    ensures Framed(e) && Apart(e, j, k)
  {
    CompactedSlot(d, e, j);
    CompactedSlot(d, e, k);
    PackedApart(d, e, j, k);
  }

  lemma PackedApart(d: Bytes, e: Bytes, j: nat, k: nat)
    requires Framed(d) && Framed(e) && Count(e) == Count(d) && j < k < Count(d)
    requires Live(d, j) && Live(d, k) ==> Offset(e, j) == Cursor(d, j + 1)
                                          && Offset(e, k) + Length(e, k) == Cursor(d, k)
    requires Live(e, j) ==> Live(d, j)
    requires Live(e, k) ==> Live(d, k)
    ensures Apart(e, j, k)
  {
    CursorFalls(d, j + 1, k);
  }

  /**
  On every compactable page compaction keeps every record and every tombstone, and leaves as free
  space everything that header, directory and live records do not need. Its result is a built
  page, even if the records overlapped before.
  */
  lemma CompactRefines(d: Bytes) returns (e: Bytes)
    requires Compactable(d)
    ensures Cursor(d, Count(d)) >= 0 && e == Compacted(d) && Built(e) && CompactedTo(d, e)
    ensures ViewOf(e) == View(ViewOf(d).records, PAGE_SIZE - RecordBytes(ViewOf(d).records))
    ensures Upper(e) - Lower(e) == PAGE_SIZE - HEADER_SIZE - SLOT_SIZE * Count(d) - RecordBytes(Records(d))
  {
    e := CompactedBytes(d);
    CursorStaysAbove(d, Count(d));
    forall k | 0 <= k < Count(d) ensures InBounds(e, k) { CompactedSlot(d, e, k); }
    var rs, rs' := Records(d), Records(e);
    forall k | 0 <= k < Count(d) ensures rs'[k] == rs[k] { CompactedSlot(d, e, k); }
    assert rs' == rs;
    forall j, k | 0 <= j < k < Count(e) ensures Apart(e, j, k) { CompactedApart(d, e, j, k); }
  }

  // ----- compacting twice changes nothing -----

  lemma SameCursors(d: Bytes, e: Bytes, n: nat)
    requires CompactedTo(d, e) && Built(e) && n <= Count(d)
    ensures Cursor(e, n) == Cursor(d, n)
  {
    if n > 0 {
      CompactedSlot(d, e, n - 1);
      SameCursors(d, e, n - 1);
    }
  }

  lemma PlaceSame(e: Bytes, k: nat)
    requires Framed(e) && k < Count(e) && Live(e, k) && InBounds(e, k)
    ensures Place(e, k, Offset(e, k), Record(e, k).value) == e
  {
    var o, l := Offset(e, k), Length(e, k);
    assert PutBytes(e, o, e[o..o + l]) == e;
    Put16Same(e, SlotBase(k));
    Put16Same(e, SlotBase(k) + 2);
  }

  /** A record that is already where it belongs is put back where it is. */
  lemma SlidStaysPut(e: Bytes, n: nat)
    requires Bounded(e) && 0 < n <= Count(e) && Cursor(e, n) >= 0 && Cursor(e, n - 1) >= 0
    requires Slid(e, n - 1) == e && (Live(e, n - 1) ==> Offset(e, n - 1) == Cursor(e, n))
    ensures Slid(e, n) == e
  {
    assert InBounds(e, n - 1);
    if Live(e, n - 1) { PlaceSame(e, n - 1); }
  }

  lemma CursorsAgain(d: Bytes, e: Bytes, n: nat)
    requires CompactedTo(d, e) && Built(e) && n <= Count(d)
    ensures Cursor(e, n) == Cursor(d, n) && Cursor(e, n) >= 0
  {
    SameCursors(d, e, n);
    CursorStaysAbove(d, n);
  }

  lemma PackedAgain(d: Bytes, e: Bytes, n: nat)
    requires CompactedTo(d, e) && Built(e) && 0 < n <= Count(d)
    ensures Live(e, n - 1) ==> Offset(e, n - 1) == Cursor(e, n)
  {
    CursorsAgain(d, e, n);
    CompactedSlot(d, e, n - 1);
  }

  lemma {:induction false} SlidAgain(d: Bytes, e: Bytes, n: nat)
    requires CompactedTo(d, e) && Built(e) && n <= Count(d)
    ensures Cursor(e, n) >= 0 && Slid(e, n) == e
    decreases n
  {
    CursorsAgain(d, e, n);
    if n > 0 {
      SlidAgain(d, e, n - 1);
      PackedAgain(d, e, n);
      SlidStaysPut(e, n);
    }
  }

  /** Compaction is idempotent on the whole byte array. */
  lemma CompactTwice(d: Bytes)
    requires Compactable(d)
    ensures Cursor(d, Count(d)) >= 0 && Built(Compacted(d))
    ensures var e := Compacted(d); Cursor(e, Count(e)) >= 0 && Compacted(e) == e
  {
    var e := CompactRefines(d);
    SlidAgain(d, e, Count(d));
    SameCursors(d, e, Count(d));
    Put16Same(e, 11);
  }

  // ----- accepted pages that are not compactable -----

  lemma {:induction false} SlidKeepsHeader(d: Bytes, n: nat)
    requires Bounded(d) && n <= Count(d) && Cursor(d, n) >= HEADER_SIZE
    ensures forall i :: 0 <= i < HEADER_SIZE ==> Slid(d, n)[i] == d[i]
  {
    if n > 0 {
      CursorFalls(d, n - 1, n);
      SlidKeepsHeader(d, n - 1);
      assert InBounds(d, n - 1);
    }
  }

  /**
  What compaction does to any accepted page. Live records longer than the page make its cursor
  fall below zero, where it stops. If they fit into the page but not behind the directory, they
  overwrite the directory, and the result is no page any more: compaction yields a page that is
  accepted again if and only if the page was compactable.
  */
  lemma CompactedExactly(d: Bytes)
    requires Bounded(d)
    ensures (exists n :: 0 <= n <= Count(d) && Cursor(d, n) < 0) <==> RecordBytes(Records(d)) > PAGE_SIZE
    ensures Cursor(d, Count(d)) >= 0 ==> (Framed(Compacted(d)) <==> Compactable(d))
  {
    LastCursor(d);
    forall n | 0 <= n <= Count(d) ensures Cursor(d, Count(d)) <= Cursor(d, n) { CursorFalls(d, n, Count(d)); }
    if Compactable(d) { var e := CompactRefines(d); }
    else if Cursor(d, Count(d)) >= HEADER_SIZE { SlidKeepsHeader(d, Count(d)); }
  }
}
