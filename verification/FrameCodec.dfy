/** The wire format of telemetry frames: a 24-byte big-endian header, then a counted or CRLF-terminated payload. */
module FrameCodec {
  import opened Storage

  const HEADER_BYTES: nat := 24
  const CR: byte := 0x0D
  const LF: byte := 0x0A

  /** `byteCount` None: the payload runs to the next CRLF. */
  datatype Header = Header(
    timestamp: nat, sequence: nat, satellite: nat, byteCount: Option<nat>, station: byte, flags: byte)

  datatype Frame = Frame(header: Header, payload: Bytes)

  // ----- big-endian integers -----

  function Pow256(n: nat): (p: nat)
    ensures p > 0
  {
    if n == 0 then 1 else 0x100 * Pow256(n - 1)
  }

  function BigEndian(d: Bytes): (v: nat)
    ensures v < Pow256(|d|)
  {
    if d == [] then 0 else 0x100 * BigEndian(d[..|d| - 1]) + d[|d| - 1] as nat
  }

  function PutBigEndian(v: nat, n: nat): (d: Bytes)
    requires v < Pow256(n)
    ensures |d| == n
  {
    if n == 0 then [] else PutBigEndian(v / 0x100, n - 1) + [(v % 0x100) as byte]
  }

  lemma {:induction false} BigEndianRoundTrip(v: nat, n: nat)
    requires v < Pow256(n)
    ensures BigEndian(PutBigEndian(v, n)) == v
  {
    if n > 0 {
      BigEndianRoundTrip(v / 0x100, n - 1);
      assert PutBigEndian(v, n)[..n - 1] == PutBigEndian(v / 0x100, n - 1);
    }
  }

  lemma {:induction false} PutBackBigEndian(d: Bytes)
    ensures PutBigEndian(BigEndian(d), |d|) == d
  {
    if d != [] { PutBackBigEndian(d[..|d| - 1]); }
  }

  // ----- parsing -----

  /** The first CRLF at or after `i`. */
  function FindCrlf(d: Bytes, i: nat): (at: Option<nat>)
    ensures at.Some? ==> i <= at.value && IsCrlf(d, at.value) && forall k :: i <= k < at.value ==> !IsCrlf(d, k)
    ensures at.None? ==> forall k :: i <= k ==> !IsCrlf(d, k)
    decreases |d| - i
  {
    if i + 1 >= |d| then None else if IsCrlf(d, i) then Some(i) else FindCrlf(d, i + 1)
  }

  predicate IsCrlf(d: Bytes, k: nat) {
    k + 1 < |d| && d[k] == CR && d[k + 1] == LF
  }

  function ParseHeader(d: Bytes): Header
    requires |d| >= HEADER_BYTES
  {
    var count := BigEndian(d[20..22]);
    Header(BigEndian(d[..8]), BigEndian(d[8..16]), BigEndian(d[16..20]),
           if count == 0 then None else Some(count), d[22], d[23])
  }

  /** Where the payload of a frame at the start of `d` ends, and where the next frame starts. */
  function PayloadEnd(d: Bytes, count: Option<nat>): (r: Option<(nat, nat)>)
    requires |d| >= HEADER_BYTES
    ensures r.Some? ==> HEADER_BYTES <= r.value.0 <= r.value.1 <= |d|
  {
    match count
    case Some(c) => if |d| - HEADER_BYTES < c then None else Some((HEADER_BYTES + c, HEADER_BYTES + c))
    case None =>
      var at := FindCrlf(d, HEADER_BYTES);
      if at.Some? then Some((at.value, at.value + 2)) else None
  }

  /** The frame at the start of `d` and its length, if it has arrived completely. */
  function Parse(d: Bytes): (r: Option<(Frame, nat)>)
    ensures r.Some? ==> HEADER_BYTES <= r.value.1 <= |d|
  {
    if |d| < HEADER_BYTES then None
    else
      var header := ParseHeader(d);
      var end := PayloadEnd(d, header.byteCount);
      if end.None? then None else Some((Frame(header, d[HEADER_BYTES..end.value.0]), end.value.1))
  }

  // ----- encoding -----

  predicate Encodable(f: Frame) {
    && f.header.timestamp < Pow256(8) && f.header.sequence < Pow256(8) && f.header.satellite < Pow256(4)
    && match f.header.byteCount
       case Some(c) => 0 < c == |f.payload| && c < Pow256(2)
       case None => forall k :: 0 <= k < |f.payload| ==> !IsCrlf(f.payload, k)
  }

  function CountField(h: Header): nat {
    match h.byteCount case Some(c) => c case None => 0
  }

  function EncodeHeader(h: Header): (d: Bytes)
    requires h.timestamp < Pow256(8) && h.sequence < Pow256(8) && h.satellite < Pow256(4) && CountField(h) < Pow256(2)
    ensures |d| == HEADER_BYTES
  {
    PutBigEndian(h.timestamp, 8) + PutBigEndian(h.sequence, 8) + PutBigEndian(h.satellite, 4)
    + PutBigEndian(CountField(h), 2) + [h.station, h.flags]
  }

  function Encode(f: Frame): Bytes
    requires Encodable(f)
  {
    EncodeHeader(f.header) + f.payload + if f.header.byteCount.None? then [CR, LF] else []
  }

  // ----- parsing is exactly the inverse of encoding -----

  lemma HeaderRoundTrip(h: Header, rest: Bytes)
    requires h.timestamp < Pow256(8) && h.sequence < Pow256(8) && h.satellite < Pow256(4)
    requires h.byteCount.Some? ==> 0 < h.byteCount.value < Pow256(2)
    ensures ParseHeader(EncodeHeader(h) + rest) == h
  {
    var e := EncodeHeader(h);
    var d := e + rest;
    BigEndianRoundTrip(h.timestamp, 8);
    BigEndianRoundTrip(h.sequence, 8);
    BigEndianRoundTrip(h.satellite, 4);
    BigEndianRoundTrip(CountField(h), 2);
    assert d[..8] == e[..8] == PutBigEndian(h.timestamp, 8);
    assert d[8..16] == e[8..16] == PutBigEndian(h.sequence, 8);
    assert d[16..20] == e[16..20] == PutBigEndian(h.satellite, 4);
    assert d[20..22] == e[20..22] == PutBigEndian(CountField(h), 2);
  }

  lemma HeaderPutBack(d: Bytes)
    requires |d| >= HEADER_BYTES
    ensures var h := ParseHeader(d);
            && h.timestamp < Pow256(8) && h.sequence < Pow256(8) && h.satellite < Pow256(4)
            && CountField(h) == BigEndian(d[20..22]) < Pow256(2) && EncodeHeader(h) == d[..HEADER_BYTES]
  {
    PutBackBigEndian(d[..8]);
    PutBackBigEndian(d[8..16]);
    PutBackBigEndian(d[16..20]);
    PutBackBigEndian(d[20..22]);
    assert d[..HEADER_BYTES] == d[..8] + d[8..16] + d[16..20] + d[20..22] + [d[22], d[23]];
  }

  /** Every frame comes back from its bytes, whatever follows them. */
  lemma FrameRoundTrip(f: Frame, rest: Bytes)
    requires Encodable(f)
    ensures Parse(Encode(f) + rest) == Some((f, |Encode(f)|))
  {
    var tail := f.payload + if f.header.byteCount.None? then [CR, LF] else [];
    var d := Encode(f) + rest;
    assert d == EncodeHeader(f.header) + (tail + rest);
    HeaderRoundTrip(f.header, tail + rest);
    assert d[HEADER_BYTES..HEADER_BYTES + |f.payload|] == f.payload;
    if f.header.byteCount.None? { FirstCrlf(d, f.payload); }
  }

  /** A payload without CRLF, then CRLF: that is where the scan stops. */
  lemma FirstCrlf(d: Bytes, payload: Bytes)
    requires HEADER_BYTES + |payload| + 2 <= |d|
    requires d[HEADER_BYTES..HEADER_BYTES + |payload| + 2] == payload + [CR, LF]
    requires forall k :: 0 <= k < |payload| ==> !IsCrlf(payload, k)
    ensures FindCrlf(d, HEADER_BYTES) == Some(HEADER_BYTES + |payload|)
  {
    var line := payload + [CR, LF];
    forall k | 0 <= k < |line| ensures d[HEADER_BYTES + k] == line[k] {
      assert d[HEADER_BYTES..HEADER_BYTES + |payload| + 2][k] == line[k];
    }
    assert IsCrlf(d, HEADER_BYTES + |payload|);
    forall k | HEADER_BYTES <= k < HEADER_BYTES + |payload| ensures !IsCrlf(d, k) {
      assert !IsCrlf(payload, k - HEADER_BYTES);
    }
  }

  /** The bytes that a frame was parsed from are its encoding. */
  lemma ParsedBytes(d: Bytes)
    requires Parse(d).Some?
    ensures var (f, n) := Parse(d).value; Encodable(f) && Encode(f) == d[..n]
  {
    var (f, n) := Parse(d).value;
    HeaderPutBack(d);
    var e := HEADER_BYTES + |f.payload|;
    assert d[..n] == d[..HEADER_BYTES] + d[HEADER_BYTES..e] + d[e..n];
    if f.header.byteCount.None? {
      forall k | 0 <= k < |f.payload| ensures !IsCrlf(f.payload, k) { assert !IsCrlf(d, HEADER_BYTES + k); }
      assert d[e..n] == [CR, LF];
    }
  }

  /** Parsing yields frame `f` of length `n` if and only if the input starts with the encoding of `f`. */
  lemma ParseInvertsEncode(d: Bytes, f: Frame, n: nat)
    ensures Parse(d) == Some((f, n)) <==> Encodable(f) && n == |Encode(f)| <= |d| && d[..n] == Encode(f)
  {
    if Parse(d) == Some((f, n)) { ParsedBytes(d); }
    if Encodable(f) && n == |Encode(f)| <= |d| && d[..n] == Encode(f) {
      FrameRoundTrip(f, d[n..]);
      assert d == Encode(f) + d[n..];
    }
  }

  /** What has been parsed stays parsed when more bytes arrive. */
  lemma PrefixStable(d: Bytes, more: Bytes)
    requires Parse(d).Some?
    ensures Parse(d + more) == Parse(d)
  {
    var (f, n) := Parse(d).value;
    ParsedBytes(d);
    FrameRoundTrip(f, d[n..] + more);
    assert d + more == Encode(f) + (d[n..] + more);
  }

  // ----- where the bytes are -----

  lemma Shifted(a: nat, n: nat)
    ensures 0x100 * (a * Pow256(n)) == a * Pow256(n + 1)
  {
  }

  /** The first of several bytes weighs most. */
  lemma {:induction false} FirstByteWeighs(b: byte, rest: Bytes)
    ensures BigEndian([b] + rest) == b as nat * Pow256(|rest|) + BigEndian(rest)
    decreases |rest|
  {
    var d := [b] + rest;
    if rest == [] {
      assert d[..|d| - 1] == [] && BigEndian([]) == 0;
    } else {
      var most := rest[..|rest| - 1];
      assert d[..|d| - 1] == [b] + most;
      FirstByteWeighs(b, most);
      Shifted(b as nat, |most|);
    }
  }

  /** Four bytes of `d`, the first counting 2^24. */
  function Word(d: Bytes, i: nat): nat
    requires i + 4 <= |d|
  {
    0x100_0000 * (d[i] as nat) + 0x1_0000 * (d[i + 1] as nat) + 0x100 * (d[i + 2] as nat) + d[i + 3] as nat
  }

  lemma TwoBytes(d: Bytes, i: nat)
    requires i + 2 <= |d|
    ensures BigEndian(d[i..i + 2]) == 0x100 * (d[i] as nat) + d[i + 1] as nat
  {
    var e := d[i..i + 2];
    assert e == [d[i]] + [d[i + 1]] && [d[i + 1]] == [d[i + 1]] + [];
    FirstByteWeighs(d[i], [d[i + 1]]);
    FirstByteWeighs(d[i + 1], []);
    assert Pow256(0) == 1 && Pow256(1) == 0x100;
  }

  lemma JoinedLast(a: Bytes, b: Bytes)
    requires b != []
    ensures BigEndian(a + b) == 0x100 * BigEndian(a + b[..|b| - 1]) + b[|b| - 1] as nat
  {
    assert (a + b)[..|a + b| - 1] == a + b[..|b| - 1];
  }

  lemma {:induction false} Joined(a: Bytes, b: Bytes)
    ensures BigEndian(a + b) == BigEndian(a) * Pow256(|b|) + BigEndian(b)
    decreases |b|
  {
    if b == [] {
      assert a + b == a && BigEndian(b) == 0 && Pow256(0) == 1;
    } else {
      var most, end := b[..|b| - 1], b[|b| - 1] as nat;
      JoinedLast(a, b);
      Joined(a, most);
      var x := BigEndian(a) * Pow256(|most|);
      Shifted(BigEndian(a), |most|);
      assert BigEndian(a + b) == 0x100 * (x + BigEndian(most)) + end;
    }
  }

  lemma FourBytes(d: Bytes, i: nat)
    requires i + 4 <= |d|
    ensures BigEndian(d[i..i + 4]) == Word(d, i)
  {
    assert d[i..i + 4] == d[i..i + 2] + d[i + 2..i + 4];
    Joined(d[i..i + 2], d[i + 2..i + 4]);
    TwoBytes(d, i);
    TwoBytes(d, i + 2);
    assert Pow256(1) == 0x100 && Pow256(2) == 0x1_0000;
  }

  lemma EightBytes(d: Bytes, i: nat)
    requires i + 8 <= |d|
    ensures BigEndian(d[i..i + 8]) == 0x1_0000_0000 * Word(d, i) + Word(d, i + 4)
  {
    assert d[i..i + 8] == d[i..i + 4] + d[i + 4..i + 8];
    Joined(d[i..i + 4], d[i + 4..i + 8]);
    FourBytes(d, i);
    FourBytes(d, i + 4);
    assert Pow256(1) == 0x100 && Pow256(2) == 0x1_0000 && Pow256(3) == 0x100_0000 && Pow256(4) == 0x1_0000_0000;
  }

  /** The fields of a header by position: two 64-bit integers, a 32-bit one, a 16-bit one and two bytes. */
  predicate LaidOut(d: Bytes, h: Header)
    requires |d| >= 24
  {
    && h.timestamp == 0x1_0000_0000 * Word(d, 0) + Word(d, 4)
    && h.sequence == 0x1_0000_0000 * Word(d, 8) + Word(d, 12)
    && h.satellite == Word(d, 16)
    && h.byteCount == (if d[20] == 0 && d[21] == 0 then None else Some(0x100 * (d[20] as nat) + d[21] as nat))
    && h.station == d[22] && h.flags == d[23]
  }

  lemma HeaderIsLaidOut(d: Bytes)
    requires |d| >= 24
    ensures LaidOut(d, ParseHeader(d))
  {
    assert d[..8] == d[0..8];
    EightBytes(d, 0);
    EightBytes(d, 8);
    FourBytes(d, 16);
    TwoBytes(d, 20);
  }

  /** Where a frame of payload length `l` with this header ends: behind the payload, or behind the CRLF after it. */
  predicate PayloadAt(d: Bytes, h: Header, payload: Bytes, n: nat) {
    var end := 24 + |payload|;
    && end <= n <= |d| && d[24..end] == payload
    && match h.byteCount
       case Some(c) => |payload| == c && n == end
       case None => n == end + 2 && d[end] == 13 && d[end + 1] == 10
                    && forall k :: 24 <= k < end ==> !(d[k] == 13 && d[k + 1] == 10)
  }

  /** The byte string breaks off within its first frame. */
  predicate BreaksOff(d: Bytes) {
    || |d| < 24
    || (var c := 0x100 * (d[20] as nat) + d[21] as nat;
        if c > 0 then |d| < 24 + c else forall k :: 24 <= k < |d| - 1 ==> !(d[k] == 13 && d[k + 1] == 10))
  }

  /**
  Parsing by position: the fields of the header, the payload and the length of the frame are read
  off the bytes where the format puts them, and there is no frame if and only if the bytes break off.
  */
  lemma ParseByPosition(d: Bytes)
    ensures Parse(d).None? <==> BreaksOff(d)
    ensures Parse(d).Some? ==>
              var (f, n) := Parse(d).value;
              |d| >= 24 && LaidOut(d, f.header) && PayloadAt(d, f.header, f.payload, n)
  {
    if |d| >= HEADER_BYTES {
      HeaderIsLaidOut(d);
      TwoBytes(d, 20);
      var at := FindCrlf(d, HEADER_BYTES);
      if at.None? {
        forall k | 24 <= k < |d| - 1 ensures !(d[k] == 13 && d[k + 1] == 10) { assert !IsCrlf(d, k); }
      } else {
        assert IsCrlf(d, at.value);
        forall k | 24 <= k < at.value ensures !(d[k] == 13 && d[k + 1] == 10) { assert !IsCrlf(d, k); }
      }
    }
  }
}
