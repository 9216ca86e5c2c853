/** Bytes, file chunks and length-prefixed records (crates/ud-core/src/protocol.rs,
    crates/ud-net/src/codec.rs). */
module Codec {
  import opened Wrappers

  type Byte = b: int | 0 <= b < 256
  type Bytes = seq<Byte>
  type U32 = n: int | 0 <= n < 0x1_0000_0000
  type U64 = n: int | 0 <= n < 0x1_0000_0000_0000_0000

  /** Largest record accepted: the message ceiling of section 3 of the Noise Protocol Framework. */
  const MAX_RECORD := 65535
  const HEADER_LEN := 24
  const CHUNK_BYTES := 48 * 1024

  // ---- Little endian numbers ----

  function ToLe(value: nat, width: nat): (bytes: Bytes)
    ensures |bytes| == width
  {
    if width == 0 then [] else [value % 256] + ToLe(value / 256, width - 1)
  }

  function FromLe(bytes: Bytes): nat {
    if bytes == [] then 0 else bytes[0] + 256 * FromLe(bytes[1..])
  }

  function Pow256(n: nat): nat {
    if n == 0 then 1 else 256 * Pow256(n - 1)
  }

  lemma {:induction false} FromLeOfToLe(value: nat, width: nat)
    requires value < Pow256(width)
    ensures FromLe(ToLe(value, width)) == value
  {
    if width > 0 {
      FromLeOfToLe(value / 256, width - 1);
      assert ToLe(value, width)[1..] == ToLe(value / 256, width - 1);
    }
  }

  lemma {:induction false} ToLeOfFromLe(bytes: Bytes)
    ensures ToLe(FromLe(bytes), |bytes|) == bytes
    ensures FromLe(bytes) < Pow256(|bytes|)
  {
    if bytes != [] {
      ToLeOfFromLe(bytes[1..]);
      assert FromLe(bytes) / 256 == FromLe(bytes[1..]) && FromLe(bytes) % 256 == bytes[0];
      assert bytes == [bytes[0]] + bytes[1..];
    }
  }

  lemma Widths()
    ensures Pow256(4) == 0x1_0000_0000 && Pow256(8) == 0x1_0000_0000_0000_0000
  {
    assert Pow256(2) == 65536;
    assert Pow256(4) == 65536 * Pow256(2);
    assert Pow256(6) == 65536 * Pow256(4);
    assert Pow256(8) == 65536 * Pow256(6);
  }

  // ---- File chunks ----

  datatype FileChunk = FileChunk(transfer: U64, index: U32, offset: U64, data: Bytes)

  /** The chunk on the wire; the length field is the data length truncated to 32 bits. */
  function ChunkBytes(c: FileChunk): (out: Bytes)
    ensures |out| == HEADER_LEN + |c.data|
  {
    ToLe(c.transfer, 8) + ToLe(c.index, 4) + ToLe(c.offset, 8) + ToLe(|c.data| % 0x1_0000_0000, 4) + c.data
  }

  method EncodeChunk(c: FileChunk) returns (out: Bytes)
    ensures out == ChunkBytes(c)
  {
    out := [];
    out := out + ToLe(c.transfer, 8);
    out := out + ToLe(c.index, 4);
    out := out + ToLe(c.offset, 8);
    out := out + ToLe(|c.data| % 0x1_0000_0000, 4);
    out := out + c.data;
  }

  function DecodeChunk(bytes: Bytes): Result<FileChunk> {
    if |bytes| < HEADER_LEN then Err("file chunk frame is truncated")
    else
      Fields(bytes);
      var len := FromLe(bytes[20..24]);
      if |bytes| < HEADER_LEN + len then Err("file chunk payload is truncated")
      else Ok(FileChunk(FromLe(bytes[0..8]), FromLe(bytes[8..12]), FromLe(bytes[12..20]),
                        bytes[HEADER_LEN..HEADER_LEN + len]))
  }

  lemma Fields(bytes: Bytes)
    requires |bytes| >= HEADER_LEN
    ensures FromLe(bytes[0..8]) < 0x1_0000_0000_0000_0000 && FromLe(bytes[8..12]) < 0x1_0000_0000
    ensures FromLe(bytes[12..20]) < 0x1_0000_0000_0000_0000 && FromLe(bytes[20..24]) < 0x1_0000_0000
  {
    Widths();
    ToLeOfFromLe(bytes[0..8]);
    ToLeOfFromLe(bytes[8..12]);
    ToLeOfFromLe(bytes[12..20]);
    ToLeOfFromLe(bytes[20..24]);
  }

  /** Decoding gives back every field over its full range, whatever follows on the wire; the data
      comes back whole exactly when its length fits the 32-bit length field. */
  lemma ChunkRoundTrip(c: FileChunk, trailing: Bytes)
    ensures DecodeChunk(ChunkBytes(c) + trailing) == Ok(c.(data := c.data[..|c.data| % 0x1_0000_0000]))
    ensures DecodeChunk(ChunkBytes(c) + trailing) == Ok(c) <==> |c.data| < 0x1_0000_0000
  {
    var bytes, len := ChunkBytes(c) + trailing, |c.data| % 0x1_0000_0000;
    Widths();
    assert bytes[0..8] == ToLe(c.transfer, 8) by { FromLeOfToLe(c.transfer, 8); }
    assert bytes[8..12] == ToLe(c.index, 4);
    assert bytes[12..20] == ToLe(c.offset, 8);
    assert bytes[20..24] == ToLe(len, 4);
    FromLeOfToLe(c.transfer, 8);
    FromLeOfToLe(c.index, 4);
    FromLeOfToLe(c.offset, 8);
    FromLeOfToLe(len, 4);
    assert bytes[HEADER_LEN..HEADER_LEN + len] == c.data[..len];
    if |c.data| < 0x1_0000_0000 { assert c.data[..len] == c.data; }
  }

  /** Each field of a header encodes back to the bytes it was decoded from. */
  lemma FieldsReencode(bytes: Bytes)
    requires |bytes| >= HEADER_LEN
    ensures ToLe(FromLe(bytes[0..8]), 8) == bytes[0..8]
    ensures ToLe(FromLe(bytes[8..12]), 4) == bytes[8..12]
    ensures ToLe(FromLe(bytes[12..20]), 8) == bytes[12..20]
    ensures ToLe(FromLe(bytes[20..24]), 4) == bytes[20..24]
  {
    ToLeOfFromLe(bytes[0..8]);
    ToLeOfFromLe(bytes[8..12]);
    ToLeOfFromLe(bytes[12..20]);
    ToLeOfFromLe(bytes[20..24]);
  }

  lemma DecodedHeader(bytes: Bytes) returns (c: FileChunk, len: U32)
    requires DecodeChunk(bytes).Ok?
    ensures |bytes| >= HEADER_LEN && c == DecodeChunk(bytes).value && len == FromLe(bytes[20..24])
    ensures HEADER_LEN + len <= |bytes| && c.data == bytes[HEADER_LEN..HEADER_LEN + len]
    ensures c.transfer == FromLe(bytes[0..8]) && c.index == FromLe(bytes[8..12]) && c.offset == FromLe(bytes[12..20])
  {
    Fields(bytes);
    c, len := DecodeChunk(bytes).value, FromLe(bytes[20..24]);
  }

  lemma Assembled(c: FileChunk, transfer: Bytes, index: Bytes, offset: Bytes, len: Bytes)
    requires ToLe(c.transfer, 8) == transfer && ToLe(c.index, 4) == index && ToLe(c.offset, 8) == offset
    requires |c.data| < 0x1_0000_0000 && ToLe(|c.data|, 4) == len
    ensures ChunkBytes(c) == transfer + index + offset + len + c.data
  {
  }

  /** The other way round: whatever decodes is the encoding of the chunk it decodes to, apart from
      bytes left over at the end. */
  lemma DecodedChunkReencodes(bytes: Bytes)
    requires DecodeChunk(bytes).Ok?
    ensures ChunkBytes(DecodeChunk(bytes).value) <= bytes
  {
    var c, len := DecodedHeader(bytes);
    FieldsReencode(bytes);
    Assembled(c, bytes[0..8], bytes[8..12], bytes[12..20], bytes[20..24]);
    FieldsInOrder(bytes, len);
  }

  lemma FieldsInOrder(bytes: Bytes, len: nat)
    requires HEADER_LEN + len <= |bytes|
    ensures bytes[0..8] + bytes[8..12] + bytes[12..20] + bytes[20..24] + bytes[HEADER_LEN..HEADER_LEN + len]
         == bytes[..HEADER_LEN + len]
  {
  }

  /** A number shifted right by `k` bytes. */
  function Shifted(value: nat, k: nat): nat {
    if k == 0 then value else Shifted(value / 256, k - 1)
  }

  /** The lowest byte of a number comes first. */
  lemma {:induction false} LowestByteFirst(value: nat, width: nat, k: nat)
    requires k < width
    ensures ToLe(value, width)[k] == Shifted(value, k) % 256
  {
    if k > 0 { LowestByteFirst(value / 256, width - 1, k - 1); }
  }

  /** The header of a chunk: transfer, index, offset and length, each lowest byte first, and then the data. */
  lemma ChunkLayout(c: FileChunk, k: nat)
    requires k < HEADER_LEN
    ensures |ChunkBytes(c)| == HEADER_LEN + |c.data| && ChunkBytes(c)[HEADER_LEN..] == c.data
    ensures ChunkBytes(c)[k]
         == if k < 8 then Shifted(c.transfer, k) % 256
            else if k < 12 then Shifted(c.index, k - 8) % 256
            else if k < 20 then Shifted(c.offset, k - 12) % 256
            else Shifted(|c.data| % 0x1_0000_0000, k - 20) % 256
  {
    if k < 8 { LowestByteFirst(c.transfer, 8, k); }
    else if k < 12 { LowestByteFirst(c.index, 4, k - 8); }
    else if k < 20 { LowestByteFirst(c.offset, 8, k - 12); }
    else { LowestByteFirst(|c.data| % 0x1_0000_0000, 4, k - 20); }
  }

  /** A record starts with its length, lowest byte first. */
  lemma FrameLayout(body: Bytes, k: nat)
    requires k < 4
    ensures |Frame(body)| == 4 + |body| && Frame(body)[4..] == body && Frame(body)[k] == Shifted(|body|, k) % 256
  {
    LowestByteFirst(|body|, 4, k);
  }

  /** A chunk cut short is refused. */
  lemma CutChunkIsRefused(c: FileChunk, n: nat)
    requires |c.data| < 0x1_0000_0000 && n < |ChunkBytes(c)|
    ensures DecodeChunk(ChunkBytes(c)[..n]).Err?
  {
    if n >= HEADER_LEN {
      Widths();
      FromLeOfToLe(|c.data|, 4);
      assert ChunkBytes(c)[..n][20..24] == ToLe(|c.data|, 4);
    }
  }

  // ---- Records ----

  function Frame(body: Bytes): Bytes {
    ToLe(|body|, 4) + body
  }

  datatype Read = Got(record: Bytes, rest: Bytes) | EndOfStream | TooLong

  /** One record off the front of a stream that ends where it ends. */
  function TakeRecord(stream: Bytes): (read: Read)
    ensures read.Got? ==> |read.rest| < |stream|
  {
    if |stream| < 4 then EndOfStream
    else
      var len := FromLe(stream[..4]);
      if len > MAX_RECORD then TooLong
      else if |stream| < 4 + len then EndOfStream
      else Got(stream[4..4 + len], stream[4 + len..])
  }

  /** Writes one record, refusing an oversized body before anything reaches the stream. */
  method WriteRecord(stream: Bytes, body: Bytes) returns (result: Result<Bytes>)
    ensures result.Ok? <==> |body| <= MAX_RECORD
    ensures result.Ok? ==> result.value == stream + Frame(body)
    ensures result.Ok? ==> TakeRecord(result.value[|stream|..]) == Got(body, [])
  {
    if |body| > MAX_RECORD {
      return Err("the record exceeds the limit");
    }
    var out := stream + ToLe(|body|, 4);
    out := out + body;
    assert out == stream + Frame(body);
    assert out[|stream|..] == Frame(body) + [];
    FrameReadsBack(body, []);
    return Ok(out);
  }

  lemma FrameReadsBack(body: Bytes, more: Bytes)
    requires |body| <= MAX_RECORD
    ensures TakeRecord(Frame(body) + more) == Got(body, more)
  {
    var stream := Frame(body) + more;
    Widths();
    FromLeOfToLe(|body|, 4);
    assert stream[..4] == ToLe(|body|, 4);
    assert stream[4..4 + |body|] == body && stream[4 + |body|..] == more;
  }

  /** A length beyond the limit is refused before anything of the body is read. */
  lemma LongRecordIsRefused(len: U32, more: Bytes)
    requires len > MAX_RECORD
    ensures TakeRecord(ToLe(len, 4) + more) == TooLong
  {
    Widths();
    FromLeOfToLe(len, 4);
    assert (ToLe(len, 4) + more)[..4] == ToLe(len, 4);
  }

  /** A frame cut short is not read as anything. */
  lemma CutFrameIsNotRead(body: Bytes, n: nat)
    requires |body| <= MAX_RECORD && n < |Frame(body)|
    ensures TakeRecord(Frame(body)[..n]) == EndOfStream
  {
    if n >= 4 {
      Widths();
      FromLeOfToLe(|body|, 4);
      assert Frame(body)[..n][..4] == ToLe(|body|, 4);
    }
  }

  function Frames(bodies: seq<Bytes>): Bytes {
    if bodies == [] then [] else Frame(bodies[0]) + Frames(bodies[1..])
  }

  /** All the records a stream holds, up to its end or the first one that cannot be read. */
  function Records(stream: Bytes): seq<Bytes>
    decreases |stream|
  {
    match TakeRecord(stream)
    case Got(record, rest) => [record] + Records(rest)
    case _ => []
  }

  /** How many of the framed bodies lie wholly within the first `n` bytes. */
  function WholeFrames(bodies: seq<Bytes>, n: nat): (k: nat)
    ensures k <= |bodies|
    ensures n >= |Frames(bodies)| ==> k == |bodies|
  {
    if bodies == [] || n < |Frame(bodies[0])| then 0
    else 1 + WholeFrames(bodies[1..], n - |Frame(bodies[0])|)
  }

  predicate WithinLimit(bodies: seq<Bytes>) {
    forall body :: body in bodies ==> |body| <= MAX_RECORD
  }

  lemma OneRecordThenTheRest(body: Bytes, more: Bytes)
    requires |body| <= MAX_RECORD
    ensures Records(Frame(body) + more) == [body] + Records(more)
  {
    FrameReadsBack(body, more);
  }

  /** Where a cut of several frames falls: in the first of them, or behind it. */
  lemma CutFrames(bodies: seq<Bytes>, n: nat)
    requires bodies != [] && n <= |Frames(bodies)|
    ensures var first := Frame(bodies[0]);
            if n < |first| then Frames(bodies)[..n] == first[..n]
            else Frames(bodies)[..n] == first + Frames(bodies[1..])[..n - |first|]
  {
    var first, more := Frame(bodies[0]), Frames(bodies[1..]);
    assert Frames(bodies) == first + more;
  }

  lemma OneMoreWholeFrame(bodies: seq<Bytes>, n: nat, k: nat)
    requires bodies != [] && |bodies[0]| <= MAX_RECORD && |Frame(bodies[0])| <= n <= |Frames(bodies)|
    requires k <= |bodies| - 1 && Records(Frames(bodies[1..])[..n - |Frame(bodies[0])|]) == bodies[1..][..k]
    ensures Records(Frames(bodies)[..n]) == bodies[..1 + k]
  {
    var more := Frames(bodies[1..])[..n - |Frame(bodies[0])|];
    CutFrames(bodies, n);
    assert Frames(bodies)[..n] == Frame(bodies[0]) + more;
    OneRecordThenTheRest(bodies[0], more);
    TakeBehindTheFirst(bodies, k);
  }

  lemma TakeBehindTheFirst<T>(s: seq<T>, k: nat)
    requires 1 + k <= |s|
    ensures s[..1 + k] == [s[0]] + s[1..][..k]
  {
  }

  /** Cutting a stream of records anywhere leaves exactly the records that arrived in full. */
  lemma {:induction false} StreamPrefixHoldsWholeRecords(bodies: seq<Bytes>, n: nat)
    requires WithinLimit(bodies) && n <= |Frames(bodies)|
    ensures Records(Frames(bodies)[..n]) == bodies[..WholeFrames(bodies, n)]
  {
    if bodies != [] {
      var size, tail := |Frame(bodies[0])|, bodies[1..];
      assert bodies[0] in bodies;
      if n < size {
        CutFrames(bodies, n);
        CutFrameIsNotRead(bodies[0], n);
      } else {
        assert WithinLimit(tail) by { assert forall body :: body in tail ==> body in bodies; }
        StreamPrefixHoldsWholeRecords(tail, n - size);
        OneMoreWholeFrame(bodies, n, WholeFrames(tail, n - size));
      }
    }
  }

  /** Any list of records within the limit parses back from its concatenation. */
  lemma FramingRoundTrip(bodies: seq<Bytes>)
    requires WithinLimit(bodies)
    ensures Records(Frames(bodies)) == bodies
  {
    StreamPrefixHoldsWholeRecords(bodies, |Frames(bodies)|);
    assert Frames(bodies)[..|Frames(bodies)|] == Frames(bodies);
  }

  lemma {:induction false} FramesOfAppend(bodies: seq<Bytes>, more: seq<Bytes>)
    ensures Frames(bodies + more) == Frames(bodies) + Frames(more)
  {
    if bodies == [] {
      assert bodies + more == more;
    } else {
      assert (bodies + more)[1..] == bodies[1..] + more;
      FramesOfAppend(bodies[1..], more);
    }
  }
}
