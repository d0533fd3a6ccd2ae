/** Frames on a byte stream: extracting one from a buffer, and a connection that buffers what arrives. */
module FrameStream {
  import opened Storage
  import opened FrameCodec

  /** A reading position in a fixed byte string. */
  class Cursor {
    const bytes: Bytes
    var position: nat

    ghost predicate Valid()
      reads this
    {
      position <= |bytes|
    }

    constructor (bytes: Bytes)
      ensures Valid() && this.bytes == bytes && position == 0
    {
      this.bytes := bytes;
      position := 0;
    }

    function Remaining(): Bytes
      requires Valid()
      reads this
    {
      bytes[position..]
    }

    /** The next `n` bytes as a big-endian integer. */
    method GetUint(n: nat) returns (v: nat)
      requires Valid() && n <= |Remaining()|
      modifies this
      ensures Valid() && position == old(position) + n && v == BigEndian(bytes[old(position)..position])
    {
      position := position + n;
      v := BigEndian(bytes[position - n..position]);
    }

    method GetByte() returns (b: byte)
      requires Valid() && Remaining() != []
      modifies this
      ensures Valid() && position == old(position) + 1 && b == bytes[old(position)]
    {
      position := position + 1;
      b := bytes[position - 1];
    }

    /** The payload by count, or by scanning for the line end; None if it has not arrived. */
    method GetPayload(length: Option<nat>) returns (payload: Option<Bytes>)
      requires Valid() && position >= HEADER_BYTES
      modifies this
      ensures Valid()
      ensures var end := PayloadEnd(bytes[old(position) - HEADER_BYTES..], length);
              if end.Some? then && payload == Some(bytes[old(position)..old(position) - HEADER_BYTES + end.value.0])
                                && position == old(position) - HEADER_BYTES + end.value.1
              else payload.None?
    {
      var start := position;
      ghost var d := bytes[start - HEADER_BYTES..];
      if length.Some? {
        if |bytes| - position < length.value { return None; }
        position := start + length.value;
        return Some(bytes[start..position]);
      }
      var end := |bytes| - 1;
      var i := start;
      while i < end
        invariant start <= i
        invariant position == start
        invariant FindCrlf(d, i - start + HEADER_BYTES) == FindCrlf(d, HEADER_BYTES)
      {
        assert d[i - start + HEADER_BYTES] == bytes[i];
        if bytes[i] == CR && bytes[i + 1] == LF {
          position := i + 2;
          return Some(bytes[start..i]);
        }
        i := i + 1;
      }
      payload := None;
    }

    method GetHeader() returns (header: Header)
      requires Valid() && |Remaining()| >= HEADER_BYTES
      modifies this
      ensures Valid() && position == old(position) + HEADER_BYTES && header == ParseHeader(old(Remaining()))
    {
      ghost var d, start := Remaining(), position;
      var timestamp := GetUint(8);
      var sequence := GetUint(8);
      var satellite := GetUint(4);
      var count := GetUint(2);
      var station := GetByte();
      var flags := GetByte();
      assert d[..8] == bytes[start..start + 8] && d[8..16] == bytes[start + 8..start + 16];
      assert d[16..20] == bytes[start + 16..start + 20] && d[20..22] == bytes[start + 20..start + 22];
      header := Header(timestamp, sequence, satellite, if count == 0 then None else Some(count), station, flags);
    }

    /** The next frame, leaving the cursor behind it; None if it is incomplete. */
    method TryExtractFrame() returns (frame: Option<Frame>)
      requires Valid()
      modifies this
      ensures Valid()
      ensures match Parse(old(Remaining()))
              case Some((f, n)) => frame == Some(f) && position == old(position) + n
              case None => frame.None?
    {
      ghost var d := Remaining();
      if |bytes| - position < HEADER_BYTES { return None; }
      var header := GetHeader();
      assert bytes[position - HEADER_BYTES..] == d;
      ghost var end := PayloadEnd(d, header.byteCount);
      assert end.Some? ==> d[HEADER_BYTES..end.value.0] == bytes[position..position - HEADER_BYTES + end.value.0];
      var payload := GetPayload(header.byteCount);
      if payload.None? { return None; }
      frame := Some(Frame(header, payload.value));
    }
  }

  // ----- creating a frame -----

  /** What the random generator supplies for one frame. */
  datatype Draws = Draws(sequence: nat, satellite: nat, flags: byte, fill: Bytes)

  function Range(from: byte, n: nat): (d: Bytes)
    requires from as nat + n <= 0x100
    ensures |d| == n && forall k :: 0 <= k < n ==> d[k] as nat == from as nat + k
  {
    seq(n, k requires 0 <= k < n => (from as nat + k) as byte)
  }

  /** The letters and digits in order: A to Z, a to z, 0 to 9. */
  const ALNUM: Bytes := Range(0x41, 26) + Range(0x61, 26) + Range(0x30, 10)

  /** A random byte as one of the 62 letters and digits. */
  function Alnum(b: byte): (c: byte)
    ensures IsAlnum(c)
  {
    ALNUM[(b % 62) as nat]
  }

  predicate IsAlnum(c: byte) {
    0x30 <= c < 0x3A || 0x41 <= c < 0x5B || 0x61 <= c < 0x7B
  }

  /** Every letter and digit is made from one remainder modulo 62, in the order upper case, lower case, digits. */
  lemma AlnumInOrder(b: byte, c: byte)
    ensures Alnum(b) == Alnum(c) <==> b % 62 == c % 62
    ensures b % 62 < 26 <==> 0x41 <= Alnum(b) < 0x5B
    ensures 26 <= b % 62 < 52 <==> 0x61 <= Alnum(b) < 0x7B
    ensures b % 62 == c % 62 + 1 && b % 62 != 26 && b % 62 != 52 ==> Alnum(b) == Alnum(c) + 1
  {
    assert Alnum(b) as int == if b % 62 < 26 then 0x41 + (b % 62) as int
                              else if b % 62 < 52 then 0x61 + (b % 62) as int - 26 else 0x30 + (b % 62) as int - 52;
    assert Alnum(c) as int == if c % 62 < 26 then 0x41 + (c % 62) as int
                              else if c % 62 < 52 then 0x61 + (c % 62) as int - 26 else 0x30 + (c % 62) as int - 52;
  }

  /** A frame with a payload of letters and digits, encoded; parsing it gives back what went in. */
  method CreateAt(draws: Draws, station: byte, maxPayload: nat, timestamp: nat) returns (bytes: Bytes)
    requires draws.sequence < 0x8000 && draws.satellite < 80 && timestamp < Pow256(8)
    requires 1 <= |draws.fill| < maxPayload < Pow256(2)
    ensures Parse(bytes).Some? && Parse(bytes).value.1 == |bytes| == HEADER_BYTES + |draws.fill|
    ensures var f := Parse(bytes).value.0;
            && f.header == Header(timestamp, draws.sequence, draws.satellite, Some(|draws.fill|), station, draws.flags)
            && |f.payload| == |draws.fill|
            && forall k :: 0 <= k < |f.payload| ==> f.payload[k] == Alnum(draws.fill[k])
    ensures LaidOut(bytes, Header(timestamp, draws.sequence, draws.satellite, Some(|draws.fill|), station, draws.flags))
    ensures forall k :: 0 <= k < |draws.fill| ==> bytes[24 + k] == Alnum(draws.fill[k])
  {
    var length := |draws.fill|;
    bytes := PutBigEndian(timestamp, 8) + PutBigEndian(draws.sequence, 8) + PutBigEndian(draws.satellite, 4);
    bytes := bytes + PutBigEndian(length, 2) + [station, draws.flags];
    var payload := new byte[length](k requires 0 <= k < length => draws.fill[k]);
    for k := 0 to length
      invariant forall i :: 0 <= i < k ==> payload[i] == Alnum(draws.fill[i])
      invariant forall i :: k <= i < length ==> payload[i] == draws.fill[i]
    {
      payload[k] := Alnum(payload[k]);
    }
    ghost var header := Header(timestamp, draws.sequence, draws.satellite, Some(length), station, draws.flags);
    ghost var f := Frame(header, payload[..]);
    assert bytes == EncodeHeader(header);
    bytes := bytes + payload[..];
    assert bytes == Encode(f) + [];
    FrameRoundTrip(f, []);
    ParseByPosition(bytes);
    forall k | 0 <= k < length ensures bytes[24 + k] == Alnum(draws.fill[k]) {
      assert bytes[24..24 + length][k] == payload[k];
    }
  }

  // ----- a connection -----

  datatype Received = Got(frame: Frame) | EndOfStream | ConnectionReset

  function Concat(chunks: seq<Bytes>): Bytes {
    if chunks == [] then [] else chunks[0] + Concat(chunks[1..])
  }

  class Connection {
    var buffer: Bytes

    /** What the peer will still send, cut as it will arrive; a read at the end of it returns no byte. */
    var incoming: seq<Bytes>

    ghost predicate Valid()
      reads this
    {
      forall k :: 0 <= k < |incoming| ==> incoming[k] != []
    }

    constructor (incoming: seq<Bytes>)
      requires forall k :: 0 <= k < |incoming| ==> incoming[k] != []
      ensures Valid() && Stream() == Concat(incoming)
    {
      buffer, this.incoming := [], incoming;
    }

    /** Every byte that has not been handed out in a frame. */
    function Stream(): Bytes
      reads this
    {
      buffer + Concat(incoming)
    }

    /** Append the next chunk to the buffer; 0 at the end of the stream. */
    method ReadBuf() returns (n: nat)
      requires Valid()
      modifies this
      ensures Valid() && Stream() == old(Stream())
      ensures n == 0 <==> old(incoming) == []
      ensures if n == 0 then incoming == [] else incoming == old(incoming)[1..]
      ensures n == 0 ==> buffer == old(buffer)
    {
      if incoming == [] { return 0; }
      var chunk := incoming[0];
      assert buffer + Concat(incoming) == (buffer + chunk) + Concat(incoming[1..]);
      buffer := buffer + chunk;
      incoming := incoming[1..];
      n := |chunk|;
    }

    /** Take a frame off the front of the buffer if one is complete. */
    method ParseFrame() returns (frame: Option<Frame>)
      modifies this`buffer
      ensures match Parse(old(buffer))
              case Some((f, n)) => frame == Some(f) && buffer == old(buffer)[n..]
              case None => frame.None? && buffer == old(buffer)
    {
      var cursor := new Cursor(buffer);
      assert cursor.Remaining() == buffer;
      frame := cursor.TryExtractFrame();
      if frame.Some? { buffer := buffer[cursor.position..]; }
    }

    /**
    The next frame. How the stream was cut into chunks does not matter: the answer is that of
    parsing everything at once. The stream ends well exactly if no byte is left over.
    */
    method ReadFrame() returns (r: Received)
      requires Valid()
      modifies this
      ensures Valid()
      ensures match Parse(old(Stream()))
              case Some((f, n)) => r == Received.Got(f) && Stream() == old(Stream())[n..]
              case None => r == (if old(Stream()) == [] then EndOfStream else ConnectionReset)
                           && Stream() == old(Stream()) && incoming == []
    {
      ghost var stream := Stream();
      while true
        invariant Valid() && Stream() == stream
        decreases |incoming|
      {
        ghost var before := buffer;
        var frame := ParseFrame();
        if frame.Some? {
          PrefixStable(before, Concat(incoming));
          assert Stream() == stream[Parse(before).value.1..];
          return Received.Got(frame.value);
        }
        var n := ReadBuf();
        if n == 0 {
          assert stream == buffer;
          return if buffer == [] then EndOfStream else ConnectionReset;
        }
      }
    }

    /** Read frames until the stream ends or breaks off. */
    method ReadAll() returns (frames: seq<Frame>, ended: bool)
      requires Valid()
      modifies this
      ensures frames == FramesOf(old(Stream())) && (ended <==> RestOf(old(Stream())) == [])
    {
      ghost var stream := Stream();
      frames := [];
      while true
        invariant Valid()
        invariant FramesOf(stream) == frames + FramesOf(Stream()) && RestOf(stream) == RestOf(Stream())
        decreases |Stream()|
      {
        var r := ReadFrame();
        if !r.Got? { return frames, r.EndOfStream?; }
        frames := frames + [r.frame];
      }
    }
  }

  /** The complete frames of a stream, in order. */
  function FramesOf(d: Bytes): seq<Frame>
    decreases |d|
  {
    match Parse(d) case None => [] case Some((f, n)) => [f] + FramesOf(d[n..])
  }

  /** The bytes after the last complete frame. */
  function RestOf(d: Bytes): Bytes
    decreases |d|
  {
    match Parse(d) case None => d case Some((_, n)) => RestOf(d[n..])
  }

  function EncodeAll(frames: seq<Frame>): Bytes
    requires forall k :: 0 <= k < |frames| ==> Encodable(frames[k])
  {
    if frames == [] then [] else Encode(frames[0]) + EncodeAll(frames[1..])
  }

  /** A stream of encoded frames yields exactly those frames, with no byte left over. */
  lemma {:induction false} StreamRoundTrip(frames: seq<Frame>)
    requires forall k :: 0 <= k < |frames| ==> Encodable(frames[k])
    ensures FramesOf(EncodeAll(frames)) == frames && RestOf(EncodeAll(frames)) == []
  {
    if frames != [] {
      var first, later := Encode(frames[0]), EncodeAll(frames[1..]);
      FrameRoundTrip(frames[0], later);
      assert (first + later)[|first|..] == later;
      StreamRoundTrip(frames[1..]);
    }
  }

  lemma EncodeFirst(f: Frame, later: seq<Frame>, rest: Bytes)
    requires Encodable(f) && forall k :: 0 <= k < |later| ==> Encodable(later[k])
    ensures forall k :: 0 <= k < |[f] + later| ==> Encodable(([f] + later)[k])
    ensures EncodeAll([f] + later) + rest == Encode(f) + (EncodeAll(later) + rest)
  {
    assert ([f] + later)[1..] == later;
  }

  /** Conversely a stream is the encoding of the frames it yields and the bytes left over. */
  lemma {:induction false} StreamPutBack(d: Bytes)
    ensures forall k :: 0 <= k < |FramesOf(d)| ==> Encodable(FramesOf(d)[k])
    ensures d == EncodeAll(FramesOf(d)) + RestOf(d) && Parse(RestOf(d)).None?
    decreases |d|
  {
    if Parse(d).Some? {
      var (f, n) := Parse(d).value;
      ParsedBytes(d);
      StreamPutBack(d[n..]);
      EncodeFirst(f, FramesOf(d[n..]), RestOf(d[n..]));
      assert d == d[..n] + d[n..];
    }
  }
}
