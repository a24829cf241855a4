/** The packet envelope of pkg/packet/packet.go: a header of four bytes
    (version, encoding and type, big-endian length) and a payload.

    A packet is the byte string that `Into` writes; the unused tail of the
    buffer that `NewPacket` allocates is never observable. */
module Codec {

  const VERSION := 1
  const HEADER_SIZE := 4
  const MAX_TYPE_SIZE := 0x3F
  const PACKET_MAX_SIZE := 1024
  const PACKET_PAYLOAD_SIZE := 1020

  /** The number of values of Go's uint16. */
  const UINT16 := 0x1_0000

  const PACKET_ERROR := 0
  const PACKET_SERVER_AUTH_RESPONSE := 3
  const PACKET_CLOSE_CONNECTION := 7
  /** The number of types that `TypeToString` knows. */
  const PACKET_TYPES := 8
  const ENCODING_STRING := 1
  const ENCODING_BYTES := 2

  type byte = x: int | 0 <= x < 256
  type Bytes = seq<byte>

  // ----- The header -----

  // The source packs two fields into one byte with shifts and masks. The model
  // writes the same operations as arithmetic; `BitOperators` shows that they
  // agree on every byte.

  /** `uint8(enc << 6) | uint8(t)`: the encoding keeps its low two bits. */
  function TypeAndEncodingByte(t: byte, enc: byte): byte
    requires t <= MAX_TYPE_SIZE
  {
    enc % 4 * 64 + t
  }

  function TypeField(b: byte): byte { b % 64 }

  function EncodingField(b: byte): byte { b / 64 }

  lemma MaskIsTypeField(b: bv8)
    ensures (b & 0x3F) as int == TypeField(b as int)
  {}

  lemma ShiftIsEncodingField(b: bv8)
    ensures ((b >> 6) & 3) as int == EncodingField(b as int)
  {}

  lemma MaskIsRemainder(b: bv8)
    ensures (b & 3) as int == (b as int) % 4
  {}

  lemma BitOperators(t: bv8, enc: bv8)
    requires t < 64
    ensures var b := (enc << 6) | t;
            && TypeField(b as int) == (b & 0x3F) as int
            && EncodingField(b as int) == ((b >> 6) & 3) as int
            && (t as int <= MAX_TYPE_SIZE ==> b as int == TypeAndEncodingByte(t as int, enc as int))
  {
    var b := (enc << 6) | t;
    MaskIsTypeField(b);
    ShiftIsEncodingField(b);
    MaskIsRemainder(enc);
    assert b & 0x3F == t;
    assert (b >> 6) & 3 == enc & 3;
  }

  /** `PutUint16`, after the conversion `uint16(n)`. */
  function BigEndian16(n: nat): Bytes {
    [n % UINT16 / 256, n % 256]
  }

  /** `getPacketLength`. */
  function DeclaredLength(p: Bytes): nat
    requires |p| >= HEADER_SIZE
  {
    var high: int := p[2];
    high * 256 + p[3]
  }

  function Type(p: Bytes): byte
    requires |p| >= HEADER_SIZE
  {
    TypeField(p[1])
  }

  function Encoding(p: Bytes): byte
    requires |p| >= HEADER_SIZE
  {
    EncodingField(p[1])
  }

  function Data(p: Bytes): Bytes
    requires |p| >= HEADER_SIZE
  {
    p[HEADER_SIZE..]
  }

  // ----- Construction -----

  /** The bytes of a packet with the given parts. Both constructors write
      them; they differ in what they assert first. */
  function Encode(t: byte, enc: byte, payload: Bytes): Bytes
    requires t <= MAX_TYPE_SIZE
  {
    [VERSION, TypeAndEncodingByte(t, enc)] + BigEndian16(|payload|) + payload
  }

  function PacketFromParts(t: byte, enc: byte, payload: Bytes): (p: Bytes)
    requires |payload| < PACKET_PAYLOAD_SIZE
    requires t < MAX_TYPE_SIZE
  {
    Encode(t, enc, payload)
  }

  /** What `PacketFromBytes` asserts of its argument. */
  predicate WellFormed(p: Bytes) {
    |p| >= HEADER_SIZE && p[0] == VERSION && DeclaredLength(p) == |p| - HEADER_SIZE
  }

  /** Decoding gives back all three parts, for every type that fits in six
      bits, every payload below the limit, and every encoding up to the two
      bits that the header keeps of it. */
  lemma RoundTrip(t: byte, enc: byte, payload: Bytes)
    requires |payload| < PACKET_PAYLOAD_SIZE
    requires t <= MAX_TYPE_SIZE
    ensures var p := Encode(t, enc, payload);
            && WellFormed(p)
            && Type(p) == t
            && Encoding(p) == enc % 4
            && Data(p) == payload
  {
    var p := Encode(t, enc, payload);
    assert p[2] == |payload| / 256 && p[3] == |payload| % 256;
  }

  lemma SplitLength(high: byte, low: byte, n: nat)
    requires n == (high as int) * 256 + low
    ensures BigEndian16(n) == [high, low]
  {}

  lemma FieldsOfByte(b: byte)
    ensures TypeAndEncodingByte(TypeField(b), EncodingField(b)) == b
  {}

  /** Every well-formed packet is the encoding of its own parts, so decoding
      loses nothing. */
  lemma DecodeThenEncode(p: Bytes)
    requires WellFormed(p)
    ensures Encode(Type(p), Encoding(p), Data(p)) == p
  {
    SplitLength(p[2], p[3], |Data(p)|);
    FieldsOfByte(p[1]);
    HeaderThenData(p);
  }

  lemma HeaderThenData(p: Bytes)
    requires |p| >= HEADER_SIZE
    ensures p == [p[0], p[1]] + [p[2], p[3]] + p[HEADER_SIZE..]
  {}

  /** No well-formed packet is a proper prefix of another, whatever follows
      either of them. */
  lemma PrefixFree(p: Bytes, q: Bytes, tail: Bytes)
    requires WellFormed(p) && WellFormed(q)
    requires p <= q + tail
    ensures p == q
  {
    assert forall k :: 0 <= k < HEADER_SIZE ==> p[k] == (q + tail)[k] == q[k];
    assert |p| == |q|;
    assert p == (q + tail)[..|p|] == q;
  }

  /** `NewPacket`: the encoder has read `payload` into the buffer past the
      header, and the header is then filled in. Only `b[..len]` is ever
      written out, and it is what `PacketFromParts` builds. */
  method NewPacket(t: byte, enc: byte, payload: Bytes) returns (b: array<byte>, len: nat)
    requires |payload| < PACKET_PAYLOAD_SIZE
    requires t <= MAX_TYPE_SIZE
    ensures fresh(b) && b.Length == HEADER_SIZE + PACKET_PAYLOAD_SIZE && len <= b.Length
    ensures b[..len] == Encode(t, enc, payload)
    ensures t < MAX_TYPE_SIZE ==> b[..len] == PacketFromParts(t, enc, payload)
  {
    b := new byte[PACKET_MAX_SIZE](_ => 0);
    var n := 0;
    while n < |payload|
      invariant n <= |payload|
      invariant forall k :: 0 <= k < n ==> b[HEADER_SIZE + k] == payload[k]
    {
      b[HEADER_SIZE + n] := payload[n];
      n := n + 1;
    }
    b[0] := VERSION;
    b[1] := TypeAndEncodingByte(t, enc);
    b[2], b[3] := BigEndian16(n)[0], BigEndian16(n)[1];
    len := n + HEADER_SIZE;
    assert b[HEADER_SIZE..len] == payload;
    assert b[..len] == b[..HEADER_SIZE] + b[HEADER_SIZE..len];
  }

  // ----- Packets with a fixed meaning -----

  predicate IsCloseConnection(p: Bytes)
    requires |p| >= HEADER_SIZE
  {
    Type(p) == PACKET_CLOSE_CONNECTION
  }

  /** `String` of such a packet ends the process. */
  predicate IsUnknown(p: Bytes)
    requires |p| >= HEADER_SIZE
  {
    Type(p) >= PACKET_TYPES
  }

  /** Eight types have a name. */
  lemma KnownTypes(p: Bytes)
    requires |p| >= HEADER_SIZE
    ensures IsUnknown(p) <==> Type(p) !in {0, 1, 2, 3, 4, 5, 6, 7}
  {}

  function CreateCloseConnection(): Bytes {
    PacketFromParts(PACKET_CLOSE_CONNECTION, ENCODING_BYTES, [])
  }

  function CreateErrorPacket(message: Bytes): Bytes
    requires |message| < PACKET_PAYLOAD_SIZE
  {
    PacketFromParts(PACKET_ERROR, ENCODING_STRING, message)
  }

  function CreateServerAuthResponse(accepted: bool, id: Bytes): Bytes
    requires |id| + 1 < PACKET_PAYLOAD_SIZE
  {
    var flag: byte := if accepted then 1 else 0;
    PacketFromParts(PACKET_SERVER_AUTH_RESPONSE, ENCODING_BYTES, [flag] + id)
  }

  /** `ServerAuthGameId`, on a packet that a framer produced. */
  function ServerAuthGameId(p: Bytes): Bytes
    requires |p| > HEADER_SIZE
  {
    p[HEADER_SIZE + 1..]
  }

  /** A client reads out of an auth response what the proxy put in, and can
      tell it from the other two kinds of packet. */
  lemma ServerAuthRoundTrip(accepted: bool, id: Bytes)
    requires |id| + 1 < PACKET_PAYLOAD_SIZE
    ensures var p := CreateServerAuthResponse(accepted, id);
            && WellFormed(p)
            && Type(p) == PACKET_SERVER_AUTH_RESPONSE
            && !IsCloseConnection(p)
            && |p| > HEADER_SIZE
            && ServerAuthGameId(p) == id
            && (Data(p)[0] == 1 <==> accepted)
            && p[..2] == [1, 0x83]
  {
    var flag: byte := if accepted then 1 else 0;
    RoundTrip(PACKET_SERVER_AUTH_RESPONSE, ENCODING_BYTES, [flag] + id);
    assert ([flag] + id)[1..] == id;
  }

  lemma ControlPacketTypes(message: Bytes)
    requires |message| < PACKET_PAYLOAD_SIZE
    ensures var p := CreateErrorPacket(message);
            && WellFormed(p) && Type(p) == PACKET_ERROR && !IsCloseConnection(p)
            && p[..2] == [1, 0x40] && Data(p) == message
    ensures var p := CreateCloseConnection();
            && WellFormed(p) && IsCloseConnection(p) && p == [1, 0x87, 0, 0]
  {
    RoundTrip(PACKET_ERROR, ENCODING_STRING, message);
    RoundTrip(PACKET_CLOSE_CONNECTION, ENCODING_BYTES, []);
  }
}
