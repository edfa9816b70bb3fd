/** The chat server's fixed-header packet decoder (class ReceiveFilter and the request
    record EFBinaryRequestInfo), on a little-endian host.

    A packet is a 5-byte header followed by a body:
      bytes 0-1  packet size, header included (little-endian Int16)
      bytes 2-3  packet id (little-endian Int16)
      byte  4    packet type (SByte)
 */
module ReceiveFilter {

  /** PacketDef.PACKET_HEADER_SIZE: the size field, the id field and the type byte. */
  const PacketHeaderSize: int := 5

  type Byte = b: int | 0 <= b < 0x100

  /** System.Int16 */
  type Int16 = x: int | -0x8000 <= x < 0x8000

  /** System.SByte */
  type SByte = x: int | -0x80 <= x < 0x80

  /** EFBinaryRequestInfo: the decoded header fields and the body. The `Key` of the
      base BinaryRequestInfo is always null and is not represented. */
  datatype RequestInfo = RequestInfo(size: Int16, packetId: Int16, packetType: SByte, body: seq<Byte>)

  /** System.ArraySegment<byte>: a window [offset, offset + count) onto an array. */
  datatype ArraySegment = ArraySegment(buffer: seq<Byte>, offset: nat, count: nat)

  /** The unsigned 16-bit value of two bytes, least significant first. */
  function Word(lo: Byte, hi: Byte): (r: int)
    ensures 0 <= r < 0x10000
    ensures r % 0x100 == lo && r / 0x100 == hi
  {
    lo + 0x100 * hi
  }

  /** BitConverter.ToInt16 on a little-endian host: the two's-complement value of
      bytes[start] (low byte) and bytes[start + 1] (high byte). */
  function ToInt16(bytes: seq<Byte>, start: int): (r: Int16)
    requires 0 <= start && start + 2 <= |bytes|
    ensures (r - Word(bytes[start], bytes[start + 1])) % 0x10000 == 0
    ensures r < 0 <==> bytes[start + 1] >= 0x80
  {
    var w := Word(bytes[start], bytes[start + 1]);
    if w < 0x8000 then w else w - 0x10000
  }

  /** BitConverter.GetBytes(Int16) on a little-endian host: the encoding that
      ToInt16 reads back. */
  function Int16Bytes(x: Int16): (r: seq<Byte>)
    ensures |r| == 2
    ensures (Word(r[0], r[1]) - x) % 0x10000 == 0
    ensures r[1] >= 0x80 <==> x < 0
  {
    var w := if x < 0 then x + 0x10000 else x;
    [w % 0x100, w / 0x100]
  }

  /** The `(SByte)` cast of a byte: the same eight bits read as two's complement. */
  function ToSByte(b: Byte): (r: SByte)
    ensures (r - b) % 0x100 == 0
    ensures r < 0 <==> b >= 0x80
  {
    if b < 0x80 then b else b - 0x100
  }

  /** The bits of a signed byte, the inverse of ToSByte. */
  function SByteBits(x: SByte): (r: Byte)
    ensures (r - x) % 0x100 == 0
  {
    if x < 0 then x + 0x100 else x
  }

  /** The header bytes that encode a request's size, id and type. */
  function HeaderBytes(info: RequestInfo): (r: seq<Byte>)
    ensures |r| == PacketHeaderSize
  {
    Int16Bytes(info.size) + Int16Bytes(info.packetId) + [SByteBits(info.packetType)]
  }

  lemma Int16RoundTrip(x: Int16)
    ensures ToInt16(Int16Bytes(x), 0) == x
  {
  }

  lemma Int16BytesRoundTrip(bytes: seq<Byte>, start: int)
    requires 0 <= start && start + 2 <= |bytes|
    ensures Int16Bytes(ToInt16(bytes, start)) == bytes[start..start + 2]
  {
  }

  lemma SByteRoundTrip(x: SByte)
    ensures ToSByte(SByteBits(x)) == x
  {
  }

  /** GetBodyLengthFromHeader: the body length is the size field at `offset` minus
      the header size. `length` is unused. Nothing bounds the size field from below,
      so a size smaller than the header gives a negative body length. */
  function GetBodyLengthFromHeader(header: seq<Byte>, offset: int, length: int): (r: int)
    requires 0 <= offset && offset + 2 <= |header|
    ensures -0x8000 <= r + PacketHeaderSize < 0x8000
    ensures Int16Bytes(r + PacketHeaderSize) == header[offset..offset + 2]
  {
    Int16BytesRoundTrip(header, offset);
    ToInt16(header, offset) - PacketHeaderSize
  }

  /** ResolveRequestInfo as written: the three header fields are read from index 0 of
      the header's underlying array, whatever the segment's offset, and the body is a
      copy of bodyBuffer[offset .. offset + length). */
  function ResolveRequestInfo(header: ArraySegment, bodyBuffer: seq<Byte>, offset: int, length: int): (r: RequestInfo)
    requires PacketHeaderSize <= |header.buffer|
    requires 0 <= offset && 0 <= length && offset + length <= |bodyBuffer|
    ensures HeaderBytes(r) == header.buffer[..PacketHeaderSize]
    ensures |r.body| == length
    ensures forall i :: 0 <= i < length ==> r.body[i] == bodyBuffer[offset + i]
  {
    var a := header.buffer;
    Int16BytesRoundTrip(a, 0);
    Int16BytesRoundTrip(a, 2);
    RequestInfo(ToInt16(a, 0), ToInt16(a, 2), ToSByte(a[4]), bodyBuffer[offset..offset + length])
  }

  /** ResolveRequestInfo reading the header where the segment starts, as
      GetBodyLengthFromHeader does. */
  function ResolveRequestInfoAtOffset(header: ArraySegment, bodyBuffer: seq<Byte>, offset: int, length: int): (r: RequestInfo)
    requires header.offset + PacketHeaderSize <= |header.buffer|
    requires 0 <= offset && 0 <= length && offset + length <= |bodyBuffer|
    ensures HeaderBytes(r) == header.buffer[header.offset..header.offset + PacketHeaderSize]
    ensures |r.body| == length
    ensures forall i :: 0 <= i < length ==> r.body[i] == bodyBuffer[offset + i]
  {
    var a, o := header.buffer, header.offset;
    Int16BytesRoundTrip(a, o);
    Int16BytesRoundTrip(a, o + 2);
    RequestInfo(ToInt16(a, o), ToInt16(a, o + 2), ToSByte(a[o + 4]), bodyBuffer[offset..offset + length])
  }

  /** Decoding the encoding of any header gives back its size, id and type. */
  lemma HeaderRoundTrip(info: RequestInfo, rest: seq<Byte>, offset: nat, count: nat)
    ensures var r := ResolveRequestInfo(ArraySegment(HeaderBytes(info) + rest, offset, count), info.body, 0, |info.body|);
            r == info
  {
    var a := HeaderBytes(info) + rest;
    Int16RoundTrip(info.size);
    Int16RoundTrip(info.packetId);
    assert a[0..2] == Int16Bytes(info.size);
    assert a[2..4] == Int16Bytes(info.packetId);
    SByteRoundTrip(info.packetType);
  }

  /** With the header at the start of its array, the body length announced by
      GetBodyLengthFromHeader plus the header size is the decoded Size. */
  lemma BodyLengthMatchesSize(header: ArraySegment, bodyBuffer: seq<Byte>, offset: int, length: int)
    requires header.offset == 0 && PacketHeaderSize <= |header.buffer|
    requires 0 <= offset && 0 <= length && offset + length <= |bodyBuffer|
    ensures GetBodyLengthFromHeader(header.buffer, header.offset, header.count) + PacketHeaderSize
            == ResolveRequestInfo(header, bodyBuffer, offset, length).size
  {
  }

  /** The fields decoded as written do not depend on where the segment starts. */
  lemma HeaderOffsetIgnored(buffer: seq<Byte>, o1: nat, c1: nat, o2: nat, c2: nat, bodyBuffer: seq<Byte>, offset: int, length: int)
    requires PacketHeaderSize <= |buffer|
    requires 0 <= offset && 0 <= length && offset + length <= |bodyBuffer|
    ensures ResolveRequestInfo(ArraySegment(buffer, o1, c1), bodyBuffer, offset, length)
         == ResolveRequestInfo(ArraySegment(buffer, o2, c2), bodyBuffer, offset, length)
  {
  }

  /** A header segment that does not start at index 0: the length step sees size 9
      (a 4-byte body) while the decoded request reports size 7. */
  lemma SizeMismatchAtNonZeroOffset()
    ensures var a: seq<Byte> := [7, 0, 1, 0, 0, 9, 0, 2, 0, 0];
            GetBodyLengthFromHeader(a, 5, 5) == 4 &&
            ResolveRequestInfo(ArraySegment(a, 5, 5), [], 0, 0).size == 7
  {
    var a: seq<Byte> := [7, 0, 1, 0, 0, 9, 0, 2, 0, 0];
    assert Word(a[5], a[6]) == 9;
    assert Word(a[0], a[1]) == 7;
  }

  /** Reading the header at the segment's offset agrees with GetBodyLengthFromHeader
      wherever the segment starts. */
  lemma CorrectedSizeMatchesBodyLength(header: ArraySegment, bodyBuffer: seq<Byte>, offset: int, length: int)
    requires header.offset + PacketHeaderSize <= |header.buffer|
    requires 0 <= offset && 0 <= length && offset + length <= |bodyBuffer|
    ensures GetBodyLengthFromHeader(header.buffer, header.offset, header.count) + PacketHeaderSize
            == ResolveRequestInfoAtOffset(header, bodyBuffer, offset, length).size
  {
  }

  /** At offset 0 the corrected decoder and the one as written coincide. */
  lemma CorrectedAgreesAtZero(header: ArraySegment, bodyBuffer: seq<Byte>, offset: int, length: int)
    requires header.offset == 0 && PacketHeaderSize <= |header.buffer|
    requires 0 <= offset && 0 <= length && offset + length <= |bodyBuffer|
    ensures ResolveRequestInfoAtOffset(header, bodyBuffer, offset, length)
         == ResolveRequestInfo(header, bodyBuffer, offset, length)
  {
  }
}
