/** The network-serialisable buffer: bytes appended at the end and consumed from the front. */
module Buffers {
  import opened Ids
  import opened Packets
  import opened Encoding

  class Buffer {
    var payload: seq<Byte>

    constructor ()
      ensures payload == []
    {
      payload := [];
    }

    /** From raw data of at most GIONET_BUFFER_MAX bytes. */
    constructor FromBytes(data: seq<Byte>)
      requires |data| <= BUFFER_MAX
      ensures payload == data
    {
      payload := data;
    }

    constructor FromText(view: Payload)
      ensures payload == EncodeBlock(view)
    {
      payload := [];
      new;
      WriteText(view);
      assert [] + EncodeBlock(view) == EncodeBlock(view);
    }

    constructor FromPacket(packet: Packet)
      ensures payload == EncodePacket(packet)
    {
      payload := [];
      new;
      WritePacket(packet);
      assert [] + EncodePacket(packet) == EncodePacket(packet);
    }

    predicate IsEmpty()
      reads this
    {
      payload == []
    }

    method Equals(rhs: Buffer) returns (same: bool)
      ensures same <==> payload == rhs.payload
    {
      if |payload| != |rhs.payload| {
        return false;
      }
      var i := 0;
      while i < |payload|
        invariant 0 <= i <= |payload|
        invariant payload[..i] == rhs.payload[..i]
      {
        if payload[i] != rhs.payload[i] {
          return false;
        }
        i := i + 1;
      }
      return true;
    }

    method Copy(other: Buffer)
      modifies this
      ensures payload == old(payload) + old(other.payload)
    {
      payload := payload + other.payload;
    }

    method CopyBytesIntoPayload(src: seq<Byte>)
      modifies this
      ensures payload == old(payload) + src
    {
      if |src| == 0 {
        return;
      }
      var beforeResize := |payload|;
      payload := payload + seq(|src|, _ => 0);
      payload := payload[..beforeResize] + src;
    }

    method ExtractBytesFromPayload(size: nat) returns (dest: seq<Byte>)
      requires |payload| >= size
      modifies this
      ensures old(payload) == dest + payload && |dest| == size
    {
      if size == 0 {
        return [];
      }
      dest := payload[..size];
      payload := payload[size..];
    }

    /** `Write` of a trivially copyable value, given as its bytes in memory. */
    method WriteFixed(bytes: seq<Byte>)
      modifies this
      ensures payload == old(payload) + bytes
    {
      CopyBytesIntoPayload(bytes);
    }

    method ReadFixed(width: nat) returns (bytes: seq<Byte>)
      requires |payload| >= width
      modifies this
      ensures ReadBytes(old(payload), width) == Parsed(bytes, payload)
    {
      bytes := ExtractBytesFromPayload(width);
    }

    method WriteText(val: Payload)
      modifies this
      ensures payload == old(payload) + EncodeBlock(val)
      ensures BlockAt(payload[|old(payload)|..], val, [])
    {
      EncodedBlockLayout(val);
      WriteFixed(LittleEndian(|val|, 4));
      CopyBytesIntoPayload(val);
    }

    method ReadText() returns (result: Payload)
      requires ReadBlock(payload).Parsed?
      modifies this
      ensures ReadBlock(old(payload)) == Parsed(result, payload) && BlockAt(old(payload), result, payload)
    {
      result := ReadLengthPrefixed();
    }

    method WriteBuffer(val: Buffer)
      requires val != this && |val.payload| < 0x8000_0000
      modifies this
      ensures payload == old(payload) + EncodeBlock(val.payload)
      ensures BlockAt(payload[|old(payload)|..], val.payload, [])
    {
      EncodedBlockLayout(val.payload);
      WriteFixed(LittleEndian(|val.payload|, 4));
      CopyBytesIntoPayload(val.payload);
    }

    method ReadBuffer() returns (result: Buffer)
      requires ReadBlock(payload).Parsed?
      modifies this
      ensures fresh(result)
      ensures |result.payload| < 0x8000_0000 && ReadBlock(old(payload)) == Parsed(result.payload, payload)
      ensures BlockAt(old(payload), result.payload, payload)
    {
      var block := ReadLengthPrefixed();
      result := new Buffer();
      result.payload := block;
    }

    method ReadLengthPrefixed() returns (block: Payload)
      requires ReadBlock(payload).Parsed?
      modifies this
      ensures ReadBlock(old(payload)) == Parsed(block, payload) && BlockAt(old(payload), block, payload)
    {
      BlockLayout(payload);
      var raw := ReadFixed(4);
      var length := DecodeInt32(raw);
      block := [];
      if length > 0 {
        FromLittleEndianRoundTrip(raw);
        Powers();
        block := ExtractBytesFromPayload(length);
      }
    }

    method WritePacket(val: Packet)
      modifies this
      ensures payload == old(payload) + EncodePacket(val)
      ensures PacketAt(payload[|old(payload)|..], val, []) && |payload| == |old(payload)| + 13 + |val.payload|
    {
      WriteFixed(EncodeHeader(val.header));
      WriteFixed(EncodeId(val.id));
      WriteFixed(EncodeId(val.ackId));
      WriteFixed(EncodeBitset(val.ackBitset));
      WriteText(val.payload);
      AppendedLayout(old(payload), val);
    }

    method ReadPacketFields() returns (packet: Packet)
      requires ReadPacket(payload).Parsed?
      modifies this
      ensures ReadPacket(old(payload)) == Parsed(packet, payload)
      ensures PacketAt(old(payload), packet, payload)
    {
      var header := ReadFixed(1);
      var id := ReadFixed(2);
      var ackId := ReadFixed(2);
      var ackBitset := ReadFixed(4);
      var block := ReadLengthPrefixed();
      packet := Packet(DecodeHeader(header), DecodeId(id), DecodeId(ackId), DecodeBitset(ackBitset), block);
      ReadLayout(old(payload), packet, payload);
    }
  }

  /** What is written can be read back, whatever the buffer already held behind it. */
  method WriteThenRead(packet: Packet, text: Payload, trailer: seq<Byte>)
    returns (p: Packet, t: Payload, rest: seq<Byte>)
    ensures p == packet && t == text && rest == trailer
  {
    var b := WriteThree(packet, text, trailer);
    PacketRoundTrip(packet, EncodeBlock(text) + trailer);
    p := b.ReadPacketFields();
    BlockRoundTrip(text, trailer);
    t := b.ReadText();
    rest := b.ReadFixed(|trailer|);
  }

  method WriteThree(packet: Packet, text: Payload, trailer: seq<Byte>) returns (b: Buffer)
    ensures fresh(b) && b.payload == EncodePacket(packet) + (EncodeBlock(text) + trailer)
  {
    b := new Buffer();
    b.WritePacket(packet);
    b.WriteText(text);
    b.WriteFixed(trailer);
  }
}
