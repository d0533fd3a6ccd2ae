/**
Byte layout of a slotted page: a 17-byte little-endian header, a slot directory growing up
from it, and a record region growing down from the end of the page.
*/
module PageLayout {
  import opened Storage

  const PAGE_SIZE: nat := 4096
  const HEADER_SIZE: nat := 17
  const SLOT_SIZE: nat := 4
  const TOMBSTONE: nat := 0xFFFF
  const MAGIC: Bytes := [0x4F, 0x4F, 0x52, 0x31]
  const DATA_PAGE: byte := 1

  const U16_LIMIT: nat := 0x1_0000
  const U32_LIMIT: nat := 0x1_0000_0000

  // ----- little-endian integers inside a byte string -----

  function U16(d: Bytes, i: nat): (v: nat)
    requires i + 2 <= |d|
    ensures v < U16_LIMIT
  {
    d[i] as nat + 0x100 * (d[i + 1] as nat)
  }

  function U32(d: Bytes, i: nat): (v: nat)
    requires i + 4 <= |d|
    ensures v < U32_LIMIT
  {
    U16(d, i) + U16_LIMIT * U16(d, i + 2)
  }

  function Put16(d: Bytes, i: nat, v: nat): (r: Bytes)
    requires i + 2 <= |d| && v < U16_LIMIT
    ensures |r| == |d| && U16(r, i) == v
    ensures forall k :: 0 <= k < |d| && !(i <= k < i + 2) ==> r[k] == d[k]
  {
    d[i := (v % 0x100) as byte][i + 1 := (v / 0x100) as byte]
  }

  function Put32(d: Bytes, i: nat, v: nat): (r: Bytes)
    requires i + 4 <= |d| && v < U32_LIMIT
    ensures |r| == |d| && U32(r, i) == v
    ensures forall k :: 0 <= k < |d| && !(i <= k < i + 4) ==> r[k] == d[k]
  {
    Put16(Put16(d, i, v % U16_LIMIT), i + 2, v / U16_LIMIT)
  }

  lemma Put16Same(d: Bytes, i: nat)
    requires i + 2 <= |d|
    ensures Put16(d, i, U16(d, i)) == d
  {
    assert U16(d, i) % 0x100 == d[i] as nat;
    assert U16(d, i) / 0x100 == d[i + 1] as nat;
  }

  /** `d` with `r` copied over it from index `at` on. */
  function PutBytes(d: Bytes, at: nat, r: Bytes): (e: Bytes)
    requires at + |r| <= |d|
    ensures |e| == |d| && e[at..at + |r|] == r
    ensures forall k :: 0 <= k < |d| && !(at <= k < at + |r|) ==> e[k] == d[k]
  {
    d[..at] + r + d[at + |r|..]
  }

  // ----- header and directory -----

  function Count(d: Bytes): nat
    requires |d| == PAGE_SIZE
  {
    U16(d, 9)
  }

  function Upper(d: Bytes): nat
    requires |d| == PAGE_SIZE
  {
    U16(d, 11)
  }

  /** First byte after the slot directory. */
  function Lower(d: Bytes): nat
    requires |d| == PAGE_SIZE
  {
    HEADER_SIZE + SLOT_SIZE * Count(d)
  }

  function SlotBase(k: nat): nat {
    HEADER_SIZE + SLOT_SIZE * k
  }

  function Offset(d: Bytes, k: nat): nat
    requires SlotBase(k + 1) <= |d|
  {
    U16(d, SlotBase(k))
  }

  function Length(d: Bytes, k: nat): nat
    requires SlotBase(k + 1) <= |d|
  {
    U16(d, SlotBase(k) + 2)
  }

  function PutSlot(d: Bytes, k: nat, offset: nat, length: nat): (r: Bytes)
    requires SlotBase(k + 1) <= |d| && offset < U16_LIMIT && length < U16_LIMIT
    ensures |r| == |d| && Offset(r, k) == offset && Length(r, k) == length
    ensures forall i :: 0 <= i < |d| && !(SlotBase(k) <= i < SlotBase(k + 1)) ==> r[i] == d[i]
  {
    Put16(Put16(d, SlotBase(k), offset), SlotBase(k) + 2, length)
  }

  /** `e` is `d` with the bytes `r` at `at` and slot `k` pointing to them. */
  ghost predicate Placed(d: Bytes, e: Bytes, k: nat, at: nat, r: Bytes) {
    && |d| == |e| == PAGE_SIZE && SlotBase(k + 1) <= at && at + |r| <= PAGE_SIZE
    && Offset(e, k) == at && Length(e, k) == |r| && e[at..at + |r|] == r
    && forall i :: 0 <= i < PAGE_SIZE && !(SlotBase(k) <= i < SlotBase(k + 1)) && !(at <= i < at + |r|)
                   ==> e[i] == d[i]
  }

  /** Copy `r` to `at` and let slot `k` point to it; the slot is written last and may lie inside the copy. */
  function Place(d: Bytes, k: nat, at: nat, r: Bytes): (e: Bytes)
    requires |d| == PAGE_SIZE && SlotBase(k + 1) <= PAGE_SIZE && at + |r| <= PAGE_SIZE
    ensures |e| == PAGE_SIZE && (SlotBase(k + 1) <= at ==> Placed(d, e, k, at, r))
  {
    var filled := PutBytes(d, at, r);
    var e := PutSlot(filled, k, at, |r|);
    assert SlotBase(k + 1) <= at ==> e[at..at + |r|] == filled[at..at + |r|];
    e
  }

  /** The slot directory lies in front of the record region, inside the page. */
  predicate Framed(d: Bytes) {
    |d| == PAGE_SIZE && Lower(d) <= Upper(d) <= PAGE_SIZE
  }

  predicate Live(d: Bytes, k: nat)
    requires Framed(d) && k < Count(d)
  {
    Offset(d, k) != TOMBSTONE
  }

  predicate InBounds(d: Bytes, k: nat)
    requires Framed(d) && k < Count(d)
  {
    Live(d, k) ==> Upper(d) <= Offset(d, k) && Offset(d, k) + Length(d, k) <= PAGE_SIZE
  }

  /** Bytes of the live records among the first `n` slots. */
  function LiveBytes(d: Bytes, n: nat): nat
    requires Framed(d) && n <= Count(d)
  {
    if n == 0 then 0 else LiveBytes(d, n - 1) + if Live(d, n - 1) then Length(d, n - 1) else 0
  }

  predicate Apart(d: Bytes, j: nat, k: nat)
    requires Framed(d) && j < Count(d) && k < Count(d)
  {
    Live(d, j) && Live(d, k) ==>
      Offset(d, j) + Length(d, j) <= Offset(d, k) || Offset(d, k) + Length(d, k) <= Offset(d, j)
  }

  /**
  A page that is accepted when it is read back: every live slot points into the record region.
  Records may overlap, and together they may be longer than the region.
  */
  ghost predicate Bounded(d: Bytes) {
    Framed(d) && forall k :: 0 <= k < Count(d) ==> InBounds(d, k)
  }

  /**
  The invariant of a page built by its own operations: live records lie inside the record
  region, pairwise disjoint, and together they are no longer than the region.
  */
  ghost predicate Built(d: Bytes) {
    && Bounded(d)
    && (forall j, k :: 0 <= j < k < Count(d) ==> Apart(d, j, k))
    && RecordBytes(Records(d)) <= PAGE_SIZE - Upper(d)
  }

  /** The live records of an accepted page fit behind its directory. */
  ghost predicate Compactable(d: Bytes) {
    Bounded(d) && RecordBytes(Records(d)) <= PAGE_SIZE - Lower(d)
  }

  // ----- the map from slots to records that a page implements -----

  function Record(d: Bytes, k: nat): Option<Bytes>
    requires Framed(d) && k < Count(d) && InBounds(d, k)
  {
    if Live(d, k) then Some(d[Offset(d, k)..Offset(d, k) + Length(d, k)]) else None
  }

  /** A page seen from outside: one optional record per slot, and where the free space ends. */
  datatype View = View(records: seq<Option<Bytes>>, upper: nat)

  ghost function Records(d: Bytes): (rs: seq<Option<Bytes>>)
    requires Bounded(d)
    ensures |rs| == Count(d) && forall k :: 0 <= k < |rs| ==> rs[k] == Record(d, k)
  {
    seq(Count(d), k requires 0 <= k < Count(d) => Record(d, k))
  }

  ghost function ViewOf(d: Bytes): View
    requires Bounded(d)
  {
    View(Records(d), Upper(d))
  }

  /** Total length of the records in a view. */
  function RecordBytes(records: seq<Option<Bytes>>): nat {
    if records == [] then 0 else RecordBytes(records[..|records| - 1]) + SizeOf(records[|records| - 1])
  }

  function SizeOf(record: Option<Bytes>): nat {
    if record.Some? then |record.value| else 0
  }

  lemma {:induction false} LiveBytesAreRecordBytes(d: Bytes, rs: seq<Option<Bytes>>, n: nat)
    requires Bounded(d) && n <= Count(d) && rs == Records(d)
    ensures LiveBytes(d, n) == RecordBytes(rs[..n])
  {
    if n > 0 {
      LiveBytesAreRecordBytes(d, rs, n - 1);
      var p := rs[..n];
      assert p[..|p| - 1] == rs[..n - 1];
      assert InBounds(d, n - 1) && p[|p| - 1] == Record(d, n - 1);
      assert SizeOf(Record(d, n - 1)) == if Live(d, n - 1) then Length(d, n - 1) else 0;
    }
  }

  /** A slot whose directory bytes and record region are the same in `e` holds the same record there. */
  lemma SameRecord(d: Bytes, e: Bytes, k: nat)
    requires Framed(d) && Framed(e) && k < Count(d) && k < Count(e) && InBounds(d, k) && Upper(e) <= Upper(d)
    requires forall i :: SlotBase(k) <= i < SlotBase(k + 1) ==> e[i] == d[i]
    requires forall i :: Upper(d) <= i < PAGE_SIZE ==> e[i] == d[i]
    ensures Offset(e, k) == Offset(d, k) && Length(e, k) == Length(d, k)
    ensures InBounds(e, k) && Record(e, k) == Record(d, k)
  {
    if Live(d, k) {
      var o, l := Offset(d, k), Length(d, k);
      assert e[o..o + l] == d[o..o + l];
    }
  }

  /**
  A slot by position: entry `k` takes the four bytes from 17 + 4k on, its offset and its length
  each with the low byte first; offset 65535 says that there is no record.
  */
  lemma RecordByPosition(d: Bytes, k: nat)
    requires Bounded(d) && k < Count(d)
    ensures Count(d) == d[9] as nat + 0x100 * (d[10] as nat) && 21 + 4 * k <= |d| == 4096
    ensures var b := 17 + 4 * k;
            var offset, length := d[b] as nat + 0x100 * (d[b + 1] as nat), d[b + 2] as nat + 0x100 * (d[b + 3] as nat);
            if offset == 65535 then InBounds(d, k) && Record(d, k) == None
            else offset + length <= 4096 && InBounds(d, k) && Record(d, k) == Some(d[offset..offset + length])
  {
    assert InBounds(d, k);
  }
}
