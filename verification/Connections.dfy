/**
 One endpoint of the reliability layer. The functions give what each critical section does to the state;
 the classes below them do it step by step.
 */
module Connections {
  import opened Ids
  import opened Packets

  /** A packet stream's state: packets kept by id, packets ready to leave, and the last id used. */
  datatype Stream = Stream(reliable: map<Id, Packet>, ready: seq<Packet>, sequence: Id)

  datatype Conn = Conn(outgoing: Stream, incoming: Stream, ackId: Id)

  /** The number of ids, besides the acknowledged one, that a packet reports on: sizeof(ackBitset). */
  const ACK_COUNT: nat := 4

  // ---------- sending ----------

  function Scheduled(out: Stream, p: Packet): Stream {
    if p.IsReliable() then
      var id := Succ(out.sequence);
      var numbered := p.(id := id);
      Stream(out.reliable[id := numbered], out.ready + [numbered], id)
    else
      out.(ready := out.ready + [p])
  }

  // ---------- the acknowledgement window ----------

  /** The id reported by bit `i` of a packet that acknowledges `ackId`: plain 16-bit subtraction. */
  function WindowId(ackId: Id, i: nat): Id {
    Wrap(ackId - (i + 1))
  }

  lemma WindowIdStep(ackId: Id, i: nat)
    ensures Wrap(Wrap(ackId - i) - 1) == WindowId(ackId, i)
  {
  }

  /** `p` after the lookup for bit `i`. */
  function Marked(p: Packet, i: nat, received: map<Id, Packet>): Packet
    requires i < ACK_COUNT
  {
    if WindowId(p.ackId, i) in received then p.(ackBitset := p.ackBitset[i := true]) else p
  }

  /** `p` with the acknowledged id and the first `n` bits filled in. */
  function AckHeader(p: Packet, ackId: Id, received: map<Id, Packet>, n: nat): Packet
    requires n <= ACK_COUNT
  {
    if n == 0 then p.(ackId := ackId, ackBitset := ZERO_WORD)
    else Marked(AckHeader(p, ackId, received, n - 1), n - 1, received)
  }

  // ---------- processing acknowledgements ----------

  function Acked(out: Stream, id: Id): Stream {
    out.(reliable := out.reliable - {id})
  }

  function Rescheduled(out: Stream, id: Id): Stream {
    if id in out.reliable then out.(ready := out.ready + [out.reliable[id]]) else out
  }

  /** The `n`-th visit of the outgoing stream: first the acknowledged id, then one visit for each bit. */
  function AckVisit(out: Stream, p: Packet, n: nat): Stream
    requires n <= ACK_COUNT
  {
    if n == 0 then Acked(out, p.ackId)
    else if p.ackBitset[n - 1] then Acked(out, WindowId(p.ackId, n - 1))
    else Rescheduled(out, WindowId(p.ackId, n - 1))
  }

  function AfterAckVisits(out: Stream, p: Packet, n: nat): Stream
    requires n <= ACK_COUNT + 1
  {
    if n == 0 then out else AckVisit(AfterAckVisits(out, p, n - 1), p, n - 1)
  }

  // ---------- receiving ----------

  function Stored(inc: Stream, p: Packet): Stream {
    inc.(reliable := inc.reliable[p.id := p])
  }

  /** Steps of `Succ` from `from` to `to`. */
  function Distance(from: Id, to: Id): nat
    requires to != INVALID_ID
  {
    if from == INVALID_ID then to else (to - from) % LAP
  }

  lemma DistanceShrinks(from: Id, to: Id)
    requires to != INVALID_ID && from != to
    ensures Distance(Succ(from), to) == Distance(from, to) - 1
  {
  }

  /** The packets released from `next` on: until `latest` is reached or an id is missing. */
  function Released(received: map<Id, Packet>, next: Id, latest: Id): seq<Packet>
    requires latest != INVALID_ID
    decreases Distance(next, latest)
  {
    if next == latest then []
    else
      DistanceShrinks(next, latest);
      var id := Succ(next);
      if id !in received then [] else [received[id]] + Released(received, id, latest)
  }

  /** The last id released. */
  function LastReleased(received: map<Id, Packet>, next: Id, latest: Id): Id
    requires latest != INVALID_ID
    decreases Distance(next, latest)
  {
    if next == latest then next
    else
      DistanceShrinks(next, latest);
      var id := Succ(next);
      if id !in received then next else LastReleased(received, id, latest)
  }

  function Drained(inc: Stream, latest: Id): Stream
    requires latest != INVALID_ID
  {
    Stream(inc.reliable,
           inc.ready + Released(inc.reliable, inc.sequence, latest),
           LastReleased(inc.reliable, inc.sequence, latest))
  }

  function ReceivedReliable(inc: Stream, ackId: Id, p: Packet): Stream
    requires p.id != INVALID_ID
  {
    Drained(Stored(inc, p), UpdatedAck(ackId, p.id))
  }

  /** The incoming stream after `p` has been received. */
  function IncomingAfter(inc: Stream, ackId: Id, p: Packet): Stream
    requires p.IsReliable() ==> p.id != INVALID_ID
  {
    if p.IsReliable() then ReceivedReliable(inc, ackId, p) else inc.(ready := inc.ready + [p])
  }

  function AckIdAfter(ackId: Id, p: Packet): Id {
    if p.IsReliable() then UpdatedAck(ackId, p.id) else ackId
  }

  function Received(c: Conn, p: Packet): Conn
    requires p.IsReliable() ==> p.id != INVALID_ID
  {
    Conn(AfterAckVisits(c.outgoing, p, ACK_COUNT + 1), IncomingAfter(c.incoming, c.ackId, p), AckIdAfter(c.ackId, p))
  }

  /**
   The loop's result in terms of positions: the packets released are those of the next positions, each of them
   present and none earlier than `latest`; and it stops only at `latest` or before a missing position.
   */
  lemma {:induction false} ReleasedPositions(received: map<Id, Packet>, start: Id, k: nat, latest: Id)
    requires latest != INVALID_ID
    ensures var run := Released(received, IdAt(start, k), latest);
            && LastReleased(received, IdAt(start, k), latest) == IdAt(start, k + |run|)
            && (forall u :: k < u <= k + |run| ==>
                  IdAt(start, u) in received && run[u - k - 1] == received[IdAt(start, u)])
            && (forall u :: k <= u < k + |run| ==> IdAt(start, u) != latest)
            && (IdAt(start, k + |run|) == latest || IdAt(start, k + |run| + 1) !in received)
    decreases Distance(IdAt(start, k), latest)
  {
    var next := IdAt(start, k);
    var id := IdAt(start, k + 1);
    SuccIdAt(start, k);
    if next != latest && id in received {
      DistanceShrinks(next, latest);
      ReleasedPositions(received, start, k + 1, latest);
      var run, rest := Released(received, next, latest), Released(received, id, latest);
      assert run == [received[id]] + rest;
      forall u | k < u <= k + |run|
        ensures IdAt(start, u) in received && run[u - k - 1] == received[IdAt(start, u)]
      {
        assert u > k + 1 ==> run[u - k - 1] == rest[u - (k + 1) - 1];
      }
    }
  }

  // ---------- the classes ----------

  class PacketStream {
    var reliablePackets: map<Id, Packet>
    var readyPackets: seq<Packet>
    var sequenceNumber: Id

    constructor ()
      ensures State() == Stream(map[], [], INVALID_ID)
    {
      reliablePackets, readyPackets, sequenceNumber := map[], [], INVALID_ID;
    }

    function State(): Stream
      reads this
    {
      Stream(reliablePackets, readyPackets, sequenceNumber)
    }

    method PopNextReadyPacket() returns (popped: seq<Packet>)
      modifies this
      ensures |popped| <= 1 && (popped == [] <==> old(readyPackets) == [])
      ensures old(State()) == State().(ready := popped + readyPackets)
    {
      if readyPackets == [] {
        return [];
      }
      popped := [readyPackets[0]];
      readyPackets := readyPackets[1..];
    }
  }

  class Connection {
    const outgoing: PacketStream
    const incoming: PacketStream
    var currentAckId: Id

    ghost predicate Valid()
    {
      outgoing != incoming
    }

    function State(): Conn
      reads this, outgoing, incoming
    {
      Conn(outgoing.State(), incoming.State(), currentAckId)
    }

    constructor ()
      ensures Valid() && fresh(outgoing) && fresh(incoming)
      ensures State() == Conn(Stream(map[], [], INVALID_ID), Stream(map[], [], INVALID_ID), INVALID_ID)
    {
      outgoing := new PacketStream();
      incoming := new PacketStream();
      currentAckId := INVALID_ID;
    }

    method SetOutgoingSequenceNumber(sequenceNumber: Id)
      requires Valid()
      modifies outgoing`sequenceNumber
      ensures outgoing.sequenceNumber == sequenceNumber
    {
      outgoing.sequenceNumber := sequenceNumber;
    }

    method SetIncomingSequenceNumber(sequenceNumber: Id)
      requires Valid()
      modifies incoming`sequenceNumber
      ensures incoming.sequenceNumber == sequenceNumber
    {
      incoming.sequenceNumber := sequenceNumber;
    }

    method GetIndexForNextPacket() returns (index: Id)
      modifies outgoing`sequenceNumber
      ensures index == outgoing.sequenceNumber == Succ(old(outgoing.sequenceNumber))
    {
      if outgoing.sequenceNumber == MAX_POSSIBLE_ID {
        outgoing.sequenceNumber := Wrap(outgoing.sequenceNumber as int + 1);
      }
      outgoing.sequenceNumber := Wrap(outgoing.sequenceNumber as int + 1);
      return outgoing.sequenceNumber;
    }

    method Schedule(packet: Packet)
      requires Valid()
      modifies outgoing
      ensures State() == old(State()).(outgoing := Scheduled(old(outgoing.State()), packet))
    {
      var p := packet;
      if p.IsReliable() {
        var index := GetIndexForNextPacket();
        p := p.(id := index);
        outgoing.reliablePackets := outgoing.reliablePackets[index := p];
      }
      outgoing.readyPackets := outgoing.readyPackets + [p];
    }

    method HasReceivedPacket(id: Id) returns (received: bool)
      ensures received <==> id in incoming.reliablePackets
    {
      received := id in incoming.reliablePackets;
    }

    method AddAckHeader(packet: Packet) returns (p: Packet)
      ensures p == AckHeader(packet, currentAckId, incoming.reliablePackets, ACK_COUNT)
    {
      p := packet.(ackId := currentAckId, ackBitset := ZERO_WORD);
      var i := 0;
      while i < ACK_COUNT
        invariant 0 <= i <= ACK_COUNT
        invariant p == AckHeader(packet, currentAckId, incoming.reliablePackets, i)
        invariant p.ackId == currentAckId
      {
        var offset := i + 1;
        var received := HasReceivedPacket(Wrap(p.ackId as int - offset));
        if received {
          p := p.(ackBitset := p.ackBitset[i := true]);
        }
        i := i + 1;
      }
    }

    /** An outgoing packet, if any is ready, with the acknowledgement of this moment. */
    method PopReadyOutgoingPacket() returns (popped: seq<Packet>)
      requires Valid()
      modifies outgoing
      ensures old(outgoing.readyPackets) == [] ==> popped == [] && State() == old(State())
      ensures old(outgoing.readyPackets) != [] ==>
                var ready := old(outgoing.readyPackets);
                && popped == [AckHeader(ready[0], currentAckId, incoming.reliablePackets, ACK_COUNT)]
                && State() == old(State()).(outgoing := old(outgoing.State()).(ready := ready[1..]))
    {
      popped := outgoing.PopNextReadyPacket();
      if popped != [] {
        var p := AddAckHeader(popped[0]);
        popped := [p];
      }
    }

    method PopReadyIncomingPacket() returns (popped: seq<Packet>)
      requires Valid()
      modifies incoming
      ensures |popped| <= 1 && (popped == [] <==> old(incoming.readyPackets) == [])
      ensures old(State()) == State().(incoming := incoming.State().(ready := popped + incoming.readyPackets))
    {
      popped := incoming.PopNextReadyPacket();
    }

    method UpdateAckId(newId: Id)
      modifies `currentAckId
      ensures currentAckId == UpdatedAck(old(currentAckId), newId)
    {
      var currentId := currentAckId;
      if currentId == INVALID_ID {
        currentAckId := newId;
        return;
      }
      var distance: Id;
      var newIdIsGreater: bool;
      if currentId > newId {
        distance := currentId - newId;
        newIdIsGreater := false;
      } else {
        distance := newId - currentId;
        newIdIsGreater := true;
      }
      if (distance < HALF_ID && newIdIsGreater) || (distance > HALF_ID && !newIdIsGreater) {
        currentAckId := newId;
      }
    }

    /** Terminates for every content of the map, because the acknowledged id is on the 0-skipping cycle. */
    method EnqueueProcessablePackets()
      requires Valid() && currentAckId != INVALID_ID
      modifies incoming`readyPackets, incoming`sequenceNumber
      ensures incoming.State() == Drained(old(incoming.State()), currentAckId)
    {
      var latestReceivedPacketId := currentAckId;
      var nextExpectedPacketId := incoming.sequenceNumber;
      ghost var received := incoming.reliablePackets;
      while nextExpectedPacketId != latestReceivedPacketId
        invariant incoming.sequenceNumber == nextExpectedPacketId
        invariant incoming.readyPackets + Released(received, nextExpectedPacketId, currentAckId)
                  == old(incoming.readyPackets) + Released(received, old(incoming.sequenceNumber), currentAckId)
        invariant LastReleased(received, nextExpectedPacketId, currentAckId)
                  == LastReleased(received, old(incoming.sequenceNumber), currentAckId)
        decreases Distance(nextExpectedPacketId, latestReceivedPacketId)
      {
        DistanceShrinks(nextExpectedPacketId, latestReceivedPacketId);
        nextExpectedPacketId := Wrap(nextExpectedPacketId as int + 1);
        if nextExpectedPacketId == INVALID_ID {
          nextExpectedPacketId := Wrap(nextExpectedPacketId as int + 1);
        }
        if nextExpectedPacketId !in incoming.reliablePackets {
          break;
        }
        ghost var next := incoming.sequenceNumber;
        assert incoming.readyPackets + Released(received, next, currentAckId)
               == incoming.readyPackets + [received[nextExpectedPacketId]] +
                  Released(received, nextExpectedPacketId, currentAckId);
        incoming.sequenceNumber := nextExpectedPacketId;
        incoming.readyPackets := incoming.readyPackets + [incoming.reliablePackets[nextExpectedPacketId]];
      }
    }

    method PacketAcked(id: Id)
      modifies outgoing`reliablePackets
      ensures outgoing.State() == Acked(old(outgoing.State()), id)
    {
      outgoing.reliablePackets := outgoing.reliablePackets - {id};
    }

    method ReschedulePacket(id: Id)
      modifies outgoing`readyPackets
      ensures outgoing.State() == Rescheduled(old(outgoing.State()), id)
    {
      if id in outgoing.reliablePackets {
        outgoing.readyPackets := outgoing.readyPackets + [outgoing.reliablePackets[id]];
      }
    }

    method ProcessAcks(packet: Packet)
      modifies outgoing
      ensures outgoing.State() == AfterAckVisits(old(outgoing.State()), packet, ACK_COUNT + 1)
    {
      var id := packet.ackId;
      PacketAcked(id);
      var i := 0;
      while i < ACK_COUNT
        invariant 0 <= i <= ACK_COUNT
        invariant id == Wrap(packet.ackId as int - i)
        invariant outgoing.State() == AfterAckVisits(old(outgoing.State()), packet, i + 1)
      {
        WindowIdStep(packet.ackId, i);
        id := Wrap(id as int - 1);
        var isPacketAcked := packet.ackBitset[i];
        if isPacketAcked {
          PacketAcked(id);
        } else {
          ReschedulePacket(id);
        }
        i := i + 1;
      }
    }

    /** Named for the source's `Received`; a reliable packet must carry a valid id, as the source asserts. */
    method Receive(packet: Packet)
      requires Valid()
      requires packet.IsReliable() ==> packet.id != INVALID_ID
      modifies this, outgoing, incoming
      ensures State() == Received(old(State()), packet)
    {
      ProcessAcks(packet);
      if packet.IsReliable() {
        var packetId := packet.id;
        UpdateAckId(packetId);
        incoming.reliablePackets := incoming.reliablePackets[packetId := packet];
        EnqueueProcessablePackets();
      } else {
        incoming.readyPackets := incoming.readyPackets + [packet];
      }
    }
  }
}
