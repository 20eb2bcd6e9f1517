/**
 The wire format: fixed-size values as little-endian bytes, strings and nested buffers behind a signed
 32-bit length, and packets as their fields in order. Reading consumes bytes from the front.
 */
module Encoding {
  import opened Ids
  import opened Packets

  /** The most bytes one datagram can bring in (GIONET_BUFFER_MAX). */
  const BUFFER_MAX: nat := 512

  /** The outcome of a read: `Short` where the source asserts that enough bytes are left. */
  datatype Parse<+T> = Short | Parsed(value: T, rest: seq<Byte>) {
    predicate IsFailure() {
      Short?
    }

    function PropagateFailure<U>(): Parse<U>
      requires Short?
    {
      Short
    }

    function Extract(): (T, seq<Byte>)
      requires Parsed?
    {
      (value, rest)
    }
  }

  // ---------- fixed-size values ----------

  function Power256(width: nat): nat {
    if width == 0 then 1 else 256 * Power256(width - 1)
  }

  function LittleEndian(n: nat, width: nat): (bytes: seq<Byte>)
    ensures |bytes| == width
  {
    if width == 0 then [] else [n % 256] + LittleEndian(n / 256, width - 1)
  }

  function FromLittleEndian(bytes: seq<Byte>): nat {
    if bytes == [] then 0 else bytes[0] + 256 * FromLittleEndian(bytes[1..])
  }

  lemma {:induction false} LittleEndianRoundTrip(n: nat, width: nat)
    requires n < Power256(width)
    ensures FromLittleEndian(LittleEndian(n, width)) == n
  {
    if width != 0 {
      LittleEndianRoundTrip(n / 256, width - 1);
    }
  }

  lemma LowestDigit(digit: Byte, n: nat)
    ensures (digit + 256 * n) % 256 == digit && (digit + 256 * n) / 256 == n
  {
  }

  lemma {:induction false} FromLittleEndianRoundTrip(bytes: seq<Byte>)
    ensures FromLittleEndian(bytes) < Power256(|bytes|)
    ensures LittleEndian(FromLittleEndian(bytes), |bytes|) == bytes
  {
    if bytes != [] {
      var n := FromLittleEndian(bytes[1..]);
      FromLittleEndianRoundTrip(bytes[1..]);
      LowestDigit(bytes[0], n);
      assert LittleEndian(bytes[0] as int + 256 * n, |bytes|) == [bytes[0]] + LittleEndian(n, |bytes| - 1);
    }
  }

  lemma Powers()
    ensures Power256(1) == 0x100
    ensures Power256(2) == 0x1_0000
    ensures Power256(4) == 0x1_0000_0000
  {
    assert Power256(3) == 0x100_0000;
  }

  function ReadBytes(bytes: seq<Byte>, width: nat): Parse<seq<Byte>> {
    if |bytes| < width then Short else Parsed(bytes[..width], bytes[width..])
  }

  lemma ReadBytesOfConcat(front: seq<Byte>, suffix: seq<Byte>)
    ensures ReadBytes(front + suffix, |front|) == Parsed(front, suffix)
  {
  }

  function EncodeId(id: Id): seq<Byte> {
    LittleEndian(id, 2)
  }

  function DecodeId(raw: seq<Byte>): Id
    requires |raw| == 2
  {
    FromLittleEndianRoundTrip(raw);
    Powers();
    FromLittleEndian(raw)
  }

  function ReadId(bytes: seq<Byte>): Parse<Id> {
    var (raw, rest) :- ReadBytes(bytes, 2);
    Parsed(DecodeId(raw), rest)
  }

  /** The number whose binary digits, lowest first, are `bits`. */
  function BitsToNat(bits: seq<bool>): nat {
    if bits == [] then 0 else (if bits[0] then 1 else 0) + 2 * BitsToNat(bits[1..])
  }

  function NatToBits(n: nat, width: nat): (bits: seq<bool>)
    ensures |bits| == width
  {
    if width == 0 then [] else [n % 2 == 1] + NatToBits(n / 2, width - 1)
  }

  function Power2(width: nat): nat {
    if width == 0 then 1 else 2 * Power2(width - 1)
  }

  lemma {:induction false} BitsRoundTrip(bits: seq<bool>)
    ensures BitsToNat(bits) < Power2(|bits|)
    ensures NatToBits(BitsToNat(bits), |bits|) == bits
  {
    if bits != [] {
      BitsRoundTrip(bits[1..]);
      assert bits == [bits[0]] + bits[1..];
    }
  }

  lemma FourBits(width: nat)
    ensures Power2(width + 4) == 16 * Power2(width)
  {
    assert Power2(width + 2) == 4 * Power2(width);
  }

  lemma {:induction false} EightBitsAByte(width: nat)
    ensures Power2(8 * width) == Power256(width)
  {
    if width > 0 {
      EightBitsAByte(width - 1);
      FourBits(8 * width - 8);
      FourBits(8 * width - 4);
    }
  }

  function EncodeHeader(header: bv8): seq<Byte> {
    LittleEndian(header as int, 1)
  }

  function DecodeHeader(raw: seq<Byte>): bv8
    requires |raw| == 1
  {
    FromLittleEndianRoundTrip(raw);
    Powers();
    FromLittleEndian(raw) as bv8
  }

  function ReadHeader(bytes: seq<Byte>): Parse<bv8> {
    var (raw, rest) :- ReadBytes(bytes, 1);
    Parsed(DecodeHeader(raw), rest)
  }

  function EncodeBitset(bitset: Word): seq<Byte> {
    LittleEndian(BitsToNat(bitset), |bitset| / 8)
  }

  function DecodeBitset(raw: seq<Byte>): Word
    requires |raw| == 4
  {
    NatToBits(FromLittleEndian(raw), 8 * |raw|)
  }

  function ReadBitset(bytes: seq<Byte>): Parse<Word> {
    var (raw, rest) :- ReadBytes(bytes, 4);
    Parsed(DecodeBitset(raw), rest)
  }

  /** An `int32_t`: the upper half of the range stands for negative numbers. */
  function DecodeInt32(raw: seq<Byte>): int {
    var n := FromLittleEndian(raw);
    if n < 0x8000_0000 then n else n - 0x1_0000_0000
  }

  function ReadInt32(bytes: seq<Byte>): Parse<int> {
    var (raw, rest) :- ReadBytes(bytes, 4);
    Parsed(DecodeInt32(raw), rest)
  }

  // ---------- strings and nested buffers ----------

  function EncodeBlock(block: Payload): seq<Byte> {
    LittleEndian(|block|, 4) + block
  }

  /** A length that is zero or negative reads as an empty block. */
  function ReadBlock(bytes: seq<Byte>): Parse<Payload> {
    var (length, rest) :- ReadInt32(bytes);
    if length > 0 then
      FromLittleEndianRoundTrip(bytes[..4]);
      Powers();
      var (block, tail) :- ReadBytes(rest, length);
      Parsed(block, tail)
    else
      Parsed([], rest)
  }

  lemma BlockRoundTrip(block: Payload, suffix: seq<Byte>)
    ensures ReadBlock(EncodeBlock(block) + suffix) == Parsed(block, suffix)
  {
    var length := LittleEndian(|block|, 4);
    assert EncodeBlock(block) + suffix == length + (block + suffix);
    ReadBytesOfConcat(length, block + suffix);
    Powers();
    LittleEndianRoundTrip(|block|, 4);
    ReadBytesOfConcat(block, suffix);
  }

  // ---------- packets ----------

  function EncodePacket(p: Packet): seq<Byte> {
    EncodeHeader(p.header) + EncodeId(p.id) + EncodeId(p.ackId) + EncodeBitset(p.ackBitset) + EncodeBlock(p.payload)
  }

  function ReadPacket(bytes: seq<Byte>): Parse<Packet> {
    var (header, afterHeader) :- ReadHeader(bytes);
    var (id, afterId) :- ReadId(afterHeader);
    var (ackId, afterAckId) :- ReadId(afterId);
    var (ackBitset, afterBitset) :- ReadBitset(afterAckId);
    var (payload, rest) :- ReadBlock(afterBitset);
    Parsed(Packet(header, id, ackId, ackBitset, payload), rest)
  }

  lemma IdRoundTrip(id: Id, suffix: seq<Byte>)
    ensures ReadId(EncodeId(id) + suffix) == Parsed(id, suffix)
  {
    Powers();
    LittleEndianRoundTrip(id, 2);
    ReadBytesOfConcat(EncodeId(id), suffix);
  }

  lemma HeaderByteRoundTrip(header: bv8, suffix: seq<Byte>)
    ensures ReadHeader(EncodeHeader(header) + suffix) == Parsed(header, suffix)
  {
    Powers();
    LittleEndianRoundTrip(header as int, 1);
    ReadBytesOfConcat(EncodeHeader(header), suffix);
  }

  lemma BitsetRoundTrip(bitset: Word, suffix: seq<Byte>)
    ensures ReadBitset(EncodeBitset(bitset) + suffix) == Parsed(bitset, suffix)
  {
    BitsRoundTrip(bitset);
    EightBitsAByte(4);
    LittleEndianRoundTrip(BitsToNat(bitset), 4);
    ReadBytesOfConcat(EncodeBitset(bitset), suffix);
  }

  lemma ReadsInTurn(
    bytes: seq<Byte>, p: Packet, t1: seq<Byte>, t2: seq<Byte>, t3: seq<Byte>, t4: seq<Byte>, rest: seq<Byte>)
    requires ReadHeader(bytes) == Parsed(p.header, t1) && ReadId(t1) == Parsed(p.id, t2)
    requires ReadId(t2) == Parsed(p.ackId, t3) && ReadBitset(t3) == Parsed(p.ackBitset, t4)
    requires ReadBlock(t4) == Parsed(p.payload, rest)
    ensures ReadPacket(bytes) == Parsed(p, rest)
  {
  }

  /** Reading an encoded packet gives the packet back and leaves exactly what followed it. */
  lemma PacketRoundTrip(p: Packet, suffix: seq<Byte>)
    ensures ReadPacket(EncodePacket(p) + suffix) == Parsed(p, suffix)
    ensures |EncodePacket(p)| == 13 + |p.payload|
  {
    var h, i, a, b := EncodeHeader(p.header), EncodeId(p.id), EncodeId(p.ackId), EncodeBitset(p.ackBitset);
    var t4 := EncodeBlock(p.payload) + suffix;
    var t3 := b + t4;
    var t2 := a + t3;
    var t1 := i + t2;
    assert EncodePacket(p) + suffix == h + t1;
    HeaderByteRoundTrip(p.header, t1);
    IdRoundTrip(p.id, t2);
    IdRoundTrip(p.ackId, t3);
    BitsetRoundTrip(p.ackBitset, t4);
    BlockRoundTrip(p.payload, suffix);
    ReadsInTurn(EncodePacket(p) + suffix, p, t1, t2, t3, t4, suffix);
  }

  /** Injective and prefix-free at once: what starts with two encodings starts with one packet. */
  lemma PacketPrefixFree(p: Packet, pSuffix: seq<Byte>, q: Packet, qSuffix: seq<Byte>)
    requires EncodePacket(p) + pSuffix == EncodePacket(q) + qSuffix
    ensures p == q && pSuffix == qSuffix
  {
    PacketRoundTrip(p, pSuffix);
    PacketRoundTrip(q, qSuffix);
  }

  // ---------- the layout in bytes ----------

  function At(bytes: seq<Byte>, i: nat): int
    requires i < |bytes|
  {
    bytes[i]
  }

  /** The number in four bytes, the lowest first. */
  function WordAt(bytes: seq<Byte>): int
    requires |bytes| >= 4
  {
    At(bytes, 0) + 0x100 * At(bytes, 1) + 0x1_0000 * At(bytes, 2) + 0x100_0000 * At(bytes, 3)
  }

  /** The same as a signed number. */
  function SignedAt(bytes: seq<Byte>): int
    requires |bytes| >= 4
  {
    if WordAt(bytes) < 0x8000_0000 then WordAt(bytes) else WordAt(bytes) - 0x1_0000_0000
  }

  /** `bytes` are a length, so many bytes of `block` if it is positive, and then `rest`. */
  ghost predicate BlockAt(bytes: seq<Byte>, block: seq<Byte>, rest: seq<Byte>) {
    |bytes| >= 4 &&
    var n := SignedAt(bytes);
    if n > 0 then |bytes| >= 4 + n && block == bytes[4..4 + n] && rest == bytes[4 + n..]
    else block == [] && rest == bytes[4..]
  }

  /** What the first `n` bits are worth: bit j is worth 2 to the power j. */
  function Worth(bits: seq<bool>, n: nat): int
    requires n <= |bits|
  {
    if n == 0 then 0 else Worth(bits, n - 1) + if bits[n - 1] then Power2(n - 1) else 0
  }

  /** The nine bytes before a packet's payload: header, id, acknowledged id and ack bits. */
  ghost predicate FieldsAt(bytes: seq<Byte>, p: Packet) {
    && |bytes| >= 9
    && bytes[0] as bv8 == p.header
    && At(bytes, 1) + 0x100 * At(bytes, 2) == p.id
    && At(bytes, 3) + 0x100 * At(bytes, 4) == p.ackId
    && WordAt(bytes[5..9]) == Worth(p.ackBitset, |p.ackBitset|)
  }

  /** `bytes` are the fields of `p`, its payload as a block, and then `rest`. */
  ghost predicate PacketAt(bytes: seq<Byte>, p: Packet, rest: seq<Byte>) {
    FieldsAt(bytes, p) && BlockAt(bytes[9..], p.payload, rest)
  }

  lemma OneByte(raw: seq<Byte>)
    requires |raw| == 1
    ensures FromLittleEndian(raw) == At(raw, 0)
  {
    assert raw[1..] == [];
  }

  lemma TwoBytes(raw: seq<Byte>)
    requires |raw| == 2
    ensures FromLittleEndian(raw) == At(raw, 0) + 0x100 * At(raw, 1)
  {
    OneByte(raw[1..]);
  }

  lemma FourBytes(raw: seq<Byte>)
    requires |raw| == 4
    ensures FromLittleEndian(raw) == WordAt(raw)
  {
    var high, top := raw[1..], raw[2..];
    assert high[1..] == top;
    TwoBytes(top);
    assert FromLittleEndian(raw) == At(raw, 0) + 256 * FromLittleEndian(high);
    assert FromLittleEndian(high) == At(raw, 1) + 256 * FromLittleEndian(top);
  }

  lemma BlockLayout(bytes: seq<Byte>)
    requires ReadBlock(bytes).Parsed?
    ensures BlockAt(bytes, ReadBlock(bytes).value, ReadBlock(bytes).rest)
  {
    FourBytes(bytes[..4]);
    var n := DecodeInt32(bytes[..4]);
    if n > 0 {
      assert bytes[4..][..n] == bytes[4..4 + n] && bytes[4..][n..] == bytes[4 + n..];
    }
  }

  lemma EncodedBlockLayout(block: Payload)
    ensures BlockAt(EncodeBlock(block), block, [])
  {
    BlockRoundTrip(block, []);
    assert EncodeBlock(block) + [] == EncodeBlock(block);
    BlockLayout(EncodeBlock(block));
  }

  /** Dropping the lowest bit halves what the others are worth. */
  lemma {:induction false} WorthOfRest(bits: seq<bool>, n: nat)
    requires 1 <= n <= |bits|
    ensures Worth(bits, n) == (if bits[0] then 1 else 0) + 2 * Worth(bits[1..], n - 1)
  {
    if n > 1 {
      WorthOfRest(bits, n - 1);
      assert bits[1..][n - 2] == bits[n - 1];
    }
  }

  lemma {:induction false} BitsAreWorth(bits: seq<bool>)
    ensures BitsToNat(bits) == Worth(bits, |bits|)
  {
    if bits != [] {
      BitsAreWorth(bits[1..]);
      WorthOfRest(bits, |bits|);
    }
  }

  lemma LowestBit(n: nat, half: nat)
    ensures n == (if n % 2 == 1 then 1 else 0) + 2 * (n / 2)
    ensures n < 2 * half ==> n / 2 < half
  {
  }

  lemma {:induction false} NatRoundTrip(n: nat, width: nat)
    requires n < Power2(width)
    ensures BitsToNat(NatToBits(n, width)) == n
  {
    if width > 0 {
      var bits := NatToBits(n, width);
      LowestBit(n, Power2(width - 1));
      NatRoundTrip(n / 2, width - 1);
      assert bits[0] == (n % 2 == 1) && bits[1..] == NatToBits(n / 2, width - 1);
      assert BitsToNat(bits) == (if bits[0] then 1 else 0) + 2 * BitsToNat(bits[1..]);
    }
  }

  lemma BitsetPart(raw: seq<Byte>)
    requires |raw| == 4
    ensures WordAt(raw) == Worth(DecodeBitset(raw), |DecodeBitset(raw)|)
  {
    FromLittleEndianRoundTrip(raw);
    EightBitsAByte(4);
    NatRoundTrip(FromLittleEndian(raw), 8 * |raw|);
    FourBytes(raw);
    BitsAreWorth(DecodeBitset(raw));
  }

  /** Where the fields of a packet are read from. */
  lemma ReadParts(bytes: seq<Byte>)
    requires ReadPacket(bytes).Parsed?
    ensures var Parsed(p, rest) := ReadPacket(bytes);
            && |bytes| >= 9
            && p.header == DecodeHeader(bytes[..1]) && p.id == DecodeId(bytes[1..3])
            && p.ackId == DecodeId(bytes[3..5]) && p.ackBitset == DecodeBitset(bytes[5..9])
            && ReadBlock(bytes[9..]) == Parsed(p.payload, rest)
  {
    assert bytes[1..][2..] == bytes[3..] && bytes[3..][2..] == bytes[5..] && bytes[5..][4..] == bytes[9..];
    assert bytes[1..][..2] == bytes[1..3] && bytes[3..][..2] == bytes[3..5] && bytes[5..][..4] == bytes[5..9];
  }

  lemma HeaderPart(raw: seq<Byte>)
    requires |raw| == 1
    ensures DecodeHeader(raw) == raw[0] as bv8
  {
    OneByte(raw);
  }

  lemma IdPart(raw: seq<Byte>)
    requires |raw| == 2
    ensures DecodeId(raw) == At(raw, 0) + 0x100 * At(raw, 1)
  {
    TwoBytes(raw);
  }

  lemma PartsLayout(bytes: seq<Byte>, p: Packet)
    requires |bytes| >= 9
    requires p.header == DecodeHeader(bytes[..1]) && p.id == DecodeId(bytes[1..3])
    requires p.ackId == DecodeId(bytes[3..5]) && p.ackBitset == DecodeBitset(bytes[5..9])
    ensures FieldsAt(bytes, p)
  {
    HeaderPart(bytes[..1]);
    IdPart(bytes[1..3]);
    IdPart(bytes[3..5]);
    BitsetPart(bytes[5..9]);
  }

  /** A packet read has the fields that the bytes lay out. */
  lemma ReadLayout(bytes: seq<Byte>, p: Packet, rest: seq<Byte>)
    requires ReadPacket(bytes) == Parsed(p, rest)
    ensures PacketAt(bytes, p, rest)
  {
    ReadParts(bytes);
    PartsLayout(bytes, p);
    BlockLayout(bytes[9..]);
  }

  /** The fields of a packet are laid out one after the other, and then its payload as a block. */
  lemma PacketLayout(p: Packet)
    ensures PacketAt(EncodePacket(p), p, []) && |EncodePacket(p)| == 13 + |p.payload|
  {
    PacketRoundTrip(p, []);
    assert EncodePacket(p) + [] == EncodePacket(p);
    ReadLayout(EncodePacket(p), p, []);
  }

  lemma AppendedLayout(before: seq<Byte>, p: Packet)
    ensures PacketAt((before + EncodePacket(p))[|before|..], p, []) && |EncodePacket(p)| == 13 + |p.payload|
  {
    PacketLayout(p);
    assert (before + EncodePacket(p))[|before|..] == EncodePacket(p);
  }

  // ---------- a buffer as a queue of typed values ----------

  datatype Value =
    | Fixed(first: Byte, others: seq<Byte>)
    | Text(text: Payload)
    | Nested(bytes: Payload)
    | Whole(packet: Packet)
  {
    function Kind(): Kind {
      match this
      case Fixed(_, others) => FixedKind(|others|)
      case Text(_) => TextKind
      case Nested(_) => NestedKind
      case Whole(_) => PacketKind
    }

    function Encode(): (bytes: seq<Byte>)
      ensures bytes != []
    {
      match this
      case Fixed(first, others) => [first] + others
      case Text(text) => EncodeBlock(text)
      case Nested(bytes) => EncodeBlock(bytes)
      case Whole(packet) => EncodePacket(packet)
    }
  }

  /** What `Read<T>` is asked for; a fixed-size type has one byte and `others` more. */
  datatype Kind = FixedKind(others: nat) | TextKind | NestedKind | PacketKind

  function ReadValue(kind: Kind, bytes: seq<Byte>): Parse<Value> {
    match kind
    case FixedKind(others) =>
      var (raw, rest) :- ReadBytes(bytes, others + 1);
      Parsed(Fixed(raw[0], raw[1..]), rest)
    case TextKind =>
      var (text, rest) :- ReadBlock(bytes);
      Parsed(Text(text), rest)
    case NestedKind =>
      var (nested, rest) :- ReadBlock(bytes);
      Parsed(Nested(nested), rest)
    case PacketKind =>
      var (packet, rest) :- ReadPacket(bytes);
      Parsed(Whole(packet), rest)
  }

  lemma ValueRoundTrip(v: Value, suffix: seq<Byte>)
    ensures ReadValue(v.Kind(), v.Encode() + suffix) == Parsed(v, suffix)
  {
    match v
    case Fixed(first, others) =>
      ReadBytesOfConcat([first] + others, suffix);
    case Text(text) =>
      BlockRoundTrip(text, suffix);
    case Nested(bytes) =>
      BlockRoundTrip(bytes, suffix);
    case Whole(packet) =>
      PacketRoundTrip(packet, suffix);
  }

  function EncodeAll(queue: seq<Value>): seq<Byte> {
    if queue == [] then [] else queue[0].Encode() + EncodeAll(queue[1..])
  }

  lemma {:induction false} EncodeAllAppend(queue: seq<Value>, v: Value)
    ensures EncodeAll(queue + [v]) == EncodeAll(queue) + v.Encode()
  {
    if queue == [] {
      assert EncodeAll([v][1..]) == [];
    } else {
      assert (queue + [v])[1..] == queue[1..] + [v];
      EncodeAllAppend(queue[1..], v);
    }
  }

  datatype Operation = Put(value: Value) | Take(kind: Kind)

  /** What the byte buffer does: appends encodings, parses from the front. */
  function RunOnBytes(bytes: seq<Byte>, ops: seq<Operation>): Parse<seq<Value>>
    decreases |ops|
  {
    if ops == [] then Parsed([], bytes)
    else match ops[0]
      case Put(v) => RunOnBytes(bytes + v.Encode(), ops[1..])
      case Take(kind) =>
        var (v, rest) :- ReadValue(kind, bytes);
        var (vs, remaining) :- RunOnBytes(rest, ops[1..]);
        Parsed([v] + vs, remaining)
  }

  /** Every read asks for the kind of the oldest unread value, and there is one. */
  ghost predicate TypeMatching(queue: seq<Value>, ops: seq<Operation>)
    decreases |ops|
  {
    ops == [] ||
    match ops[0]
    case Put(v) => TypeMatching(queue + [v], ops[1..])
    case Take(kind) => queue != [] && queue[0].Kind() == kind && TypeMatching(queue[1..], ops[1..])
  }

  /** What a first-in-first-out queue of values does: the values taken, and the values left. */
  ghost function RunOnQueue(queue: seq<Value>, ops: seq<Operation>): (seq<Value>, seq<Value>)
    requires TypeMatching(queue, ops)
    decreases |ops|
  {
    if ops == [] then ([], queue)
    else match ops[0]
      case Put(v) => RunOnQueue(queue + [v], ops[1..])
      case Take(_) =>
        var (vs, left) := RunOnQueue(queue[1..], ops[1..]);
        ([queue[0]] + vs, left)
  }

  /** For every interleaving of writes and type-matching reads the bytes behave as the queue. */
  lemma {:induction false} BytesRefineQueue(queue: seq<Value>, ops: seq<Operation>)
    requires TypeMatching(queue, ops)
    ensures var (taken, left) := RunOnQueue(queue, ops);
            RunOnBytes(EncodeAll(queue), ops) == Parsed(taken, EncodeAll(left)) &&
            (EncodeAll(left) == [] <==> left == [])
    decreases |ops|
  {
    if ops != [] {
      match ops[0]
      case Put(v) =>
        EncodeAllAppend(queue, v);
        BytesRefineQueue(queue + [v], ops[1..]);
      case Take(_) =>
        ValueRoundTrip(queue[0], EncodeAll(queue[1..]));
        BytesRefineQueue(queue[1..], ops[1..]);
    }
  }
}
