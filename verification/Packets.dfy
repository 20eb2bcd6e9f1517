/** The packet record and the packing of type and flags into its header byte. */
module Packets {
  import opened Ids

  type Byte = n: int | 0 <= n < 0x100

  /** A payload's length is an `int32_t`. */
  type Payload = s: seq<Byte> | |s| < 0x8000_0000

  /** A 32-bit word as its bits, the lowest first. */
  type Word = bits: seq<bool> | |bits| == 32 witness ZERO_BITS

  const ZERO_BITS: seq<bool> := [
    false, false, false, false, false, false, false, false,
    false, false, false, false, false, false, false, false,
    false, false, false, false, false, false, false, false,
    false, false, false, false, false, false, false, false]

  const ZERO_WORD: Word := ZERO_BITS

  datatype PacketType = Connect | Data | Ping

  /** What a cast to the enumeration gives: one of its names, or a value that has none. */
  datatype CastType = Known(name: PacketType) | Unnamed(bits: bv8)

  const RELIABLE: bv8 := 1

  const TYPE_MASK: bv8 := 0x0F
  const FLAGS_MASK: bv8 := 0xF0
  const MAX_VIABLE_FLAGS: bv8 := 0x0F

  datatype Packet = Packet(header: bv8, id: Id, ackId: Id, ackBitset: Word, payload: Payload) {

    predicate HasFlags(flags: bv8)
      requires flags <= MAX_VIABLE_FLAGS
    {
      header & (flags << 4) != 0
    }

    predicate IsReliable() {
      HasFlags(RELIABLE)
    }

    function GetTypeBits(): bv8 {
      header & TYPE_MASK
    }

    function GetType(): CastType {
      var bits := GetTypeBits();
      if bits == 0 then Known(Connect)
      else if bits == 1 then Known(Data)
      else if bits == 2 then Known(Ping)
      else Unnamed(bits)
    }

    function GetFlags(): bv8 {
      (header & FLAGS_MASK) >> 4
    }

    /** The packet without its acknowledgement: what the sender scheduled and the application reads. */
    function Content(): Packet {
      this.(ackId := INVALID_ID, ackBitset := ZERO_WORD)
    }
  }

  function TypeBits(t: PacketType): bv8 {
    match t
    case Connect => 0
    case Data => 1
    case Ping => 2
  }

  /** The constructor: the flags are or-ed in after the type. */
  function Make(t: PacketType, flags: bv8, payload: Payload): Packet
    requires flags <= MAX_VIABLE_FLAGS
  {
    Packet(TypeBits(t) | (flags << 4), INVALID_ID, INVALID_ID, ZERO_WORD, payload)
  }

  /** Type and flags do not disturb each other, and a flag test sees exactly the flags shared. */
  lemma HeaderRoundTrip(t: PacketType, flags: bv8, asked: bv8, payload: Payload)
    requires flags <= MAX_VIABLE_FLAGS && asked <= MAX_VIABLE_FLAGS
    ensures Make(t, flags, payload).GetType() == Known(t)
    ensures Make(t, flags, payload).GetTypeBits() == TypeBits(t)
    ensures Make(t, flags, payload).GetFlags() == flags
    ensures Make(t, flags, payload).HasFlags(asked) <==> flags & asked != 0
  {
  }

  /** The header bytes in numbers: the type in the lower half, the flags in the upper, reliability as bit 4. */
  lemma HeaderBytes(payload: Payload, p: Packet)
    ensures Make(Connect, 0, payload).header == 0x00 && Make(Connect, RELIABLE, payload).header == 0x10
    ensures Make(Data, 0, payload).header == 0x01 && Make(Data, RELIABLE, payload).header == 0x11
    ensures Make(Ping, 0, payload).header == 0x02 && Make(Ping, RELIABLE, payload).header == 0x12
    ensures Make(Data, 0, payload).payload == payload
    ensures p.IsReliable() <==> p.header & 0x10 != 0
    ensures p.GetType() == Known(Connect) <==> p.header & 0x0F == 0
    ensures p.GetType() == Known(Data) <==> p.header & 0x0F == 1
    ensures p.GetType() == Known(Ping) <==> p.header & 0x0F == 2
    ensures p.GetFlags() == p.header >> 4
  {
  }
}
