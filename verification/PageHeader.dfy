/** The page header on disk, and which pages are accepted when they are read back. */
module PageHeader {
  import opened Storage
  import opened PageLayout

  datatype PageType = FileHeader | Data | Index | Free | Overflow

  datatype Header = Header(pageNo: nat, pageType: PageType, recordCount: nat, freeSpaceOffset: nat, checksum: nat)

  predicate Encodable(h: Header) {
    h.pageNo < U32_LIMIT && h.recordCount < U16_LIMIT && h.freeSpaceOffset < U16_LIMIT && h.checksum < U32_LIMIT
  }

  function TypeByte(t: PageType): byte {
    match t case FileHeader => 0 case Data => 1 case Index => 2 case Free => 3 case Overflow => 4
  }

  function TypeOf(b: byte): Option<PageType> {
    if b == 0 then Some(FileHeader) else if b == 1 then Some(Data) else if b == 2 then Some(Index)
    else if b == 3 then Some(Free) else if b == 4 then Some(Overflow) else None
  }

  /** The header written over the first 17 bytes of `d`. */
  function Serialize(h: Header, d: Bytes): (e: Bytes)
    requires Encodable(h) && |d| >= HEADER_SIZE
    ensures |e| == |d|
  {
    var named := Put32(PutBytes(d, 0, MAGIC), 4, h.pageNo)[8 := TypeByte(h.pageType)];
    Put32(Put16(Put16(named, 9, h.recordCount), 11, h.freeSpaceOffset), 13, h.checksum)
  }

  function Deserialize(d: Bytes): (h: Option<Header>)
    ensures h.Some? ==> Encodable(h.value)
  {
    if |d| < HEADER_SIZE || d[..4] != MAGIC || TypeOf(d[8]).None? then None
    else Some(Header(U32(d, 4), TypeOf(d[8]).value, U16(d, 9), U16(d, 11), U32(d, 13)))
  }

  /** Every header comes back from its bytes, and nothing behind the header is touched. */
  lemma HeaderRoundTrip(h: Header, d: Bytes)
    requires Encodable(h) && |d| >= HEADER_SIZE
    ensures Deserialize(Serialize(h, d)) == Some(h)
    ensures Serialize(h, d)[HEADER_SIZE..] == d[HEADER_SIZE..]
  {
    var e := Serialize(h, d);
    var m := PutBytes(d, 0, MAGIC);
    assert m[0..0 + |MAGIC|] == MAGIC;
    assert e[..4] == m[..4] == MAGIC;
    assert U32(e, 4) == h.pageNo;
    assert U16(e, 9) == h.recordCount;
    assert U16(e, 11) == h.freeSpaceOffset;
  }

  /** The other way: an accepted header, written back, is the bytes it was read from. */
  lemma BytesRoundTrip(d: Bytes)
    requires Deserialize(d).Some?
    ensures Serialize(Deserialize(d).value, d) == d
  {
    var h := Deserialize(d).value;
    assert PutBytes(d, 0, MAGIC) == d by { assert d == d[..4] + d[4..]; }
    assert Put32(d, 4, h.pageNo) == d by { Put32Same(d, 4); }
    assert d[8 := TypeByte(h.pageType)] == d;
    assert Put16(d, 9, h.recordCount) == d by { Put16Same(d, 9); }
    assert Put16(d, 11, h.freeSpaceOffset) == d by { Put16Same(d, 11); }
    assert Put32(d, 13, h.checksum) == d by { Put32Same(d, 13); }
  }

  lemma Put32Same(d: Bytes, i: nat)
    requires i + 4 <= |d|
    ensures Put32(d, i, U32(d, i)) == d
  {
    assert U32(d, i) % U16_LIMIT == U16(d, i);
    assert U32(d, i) / U16_LIMIT == U16(d, i + 2);
    Put16Same(d, i);
    Put16Same(d, i + 2);
  }

  /** The header of a data page with the given number. */
  ghost predicate IsDataPage(d: Bytes, pageNo: nat) {
    Deserialize(d).Some? && Deserialize(d).value.pageNo == pageNo && Deserialize(d).value.pageType == Data
  }

  /** Changing counts, offsets or anything behind the header leaves a data page a data page. */
  lemma StaysDataPage(d: Bytes, e: Bytes, pageNo: nat)
    requires IsDataPage(d, pageNo) && |e| == |d|
    requires forall i :: 0 <= i < 9 ==> e[i] == d[i]
    ensures IsDataPage(e, pageNo)
  {
    assert e[..4] == d[..4];
  }

  // ----- where the bytes are -----

  /** The number that stands for a page type. */
  predicate IsType(t: PageType, b: byte) {
    || (t == FileHeader && b == 0) || (t == Data && b == 1) || (t == Index && b == 2)
    || (t == Free && b == 3) || (t == Overflow && b == 4)
  }

  /** The fields of a header by position, the low byte of every number first. */
  predicate LaidOut(d: Bytes, h: Header)
    requires |d| >= 17
  {
    && d[0] == 0x4F && d[1] == 0x4F && d[2] == 0x52 && d[3] == 0x31
    && h.pageNo == d[4] as nat + 0x100 * (d[5] as nat) + 0x1_0000 * (d[6] as nat) + 0x100_0000 * (d[7] as nat)
    && IsType(h.pageType, d[8])
    && h.recordCount == d[9] as nat + 0x100 * (d[10] as nat)
    && h.freeSpaceOffset == d[11] as nat + 0x100 * (d[12] as nat)
    && h.checksum == d[13] as nat + 0x100 * (d[14] as nat) + 0x1_0000 * (d[15] as nat) + 0x100_0000 * (d[16] as nat)
  }

  /** Bytes are read as a header if and only if they are laid out as one, and then as that one. */
  lemma HeaderByPosition(d: Bytes, h: Header)
    ensures Deserialize(d) == Some(h) <==> |d| >= 17 && LaidOut(d, h)
  {
    if |d| >= 17 { assert d[..4] == MAGIC <==> d[0] == 0x4F && d[1] == 0x4F && d[2] == 0x52 && d[3] == 0x31; }
  }

  /** A header is written in that layout. */
  lemma WrittenByPosition(h: Header, d: Bytes)
    requires Encodable(h) && |d| >= HEADER_SIZE
    ensures |Serialize(h, d)| == |d| >= 17 && LaidOut(Serialize(h, d), h)
  {
    HeaderRoundTrip(h, d);
    HeaderByPosition(Serialize(h, d), h);
  }
}
