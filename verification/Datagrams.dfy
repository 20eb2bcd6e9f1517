/**
 The same system over byte strings: what departs is serialised into a datagram, and what is received is parsed
 from one. A datagram longer than GIONET_BUFFER_MAX fails to be received.
 */
module Datagrams {
  import opened Ids
  import opened Packets
  import opened Encoding
  import opened Connections
  import opened Endpoints
  import opened Invariants
  import opened Network
  import opened Theorems

  type Bytes = seq<Byte>

  /** The endpoints, and the datagrams that have been sent towards each side. */
  datatype ByteSystem = ByteSystem(system: System, toLeft: set<Bytes>, toRight: set<Bytes>) {
    function Towards(side: Side): set<Bytes> {
      if side.Left? then toLeft else toRight
    }
  }

  /** A thread starts a local call, a datagram is received from the network, or a thread makes its next step. */
  datatype ByteAction =
    | Local(side: Side, thread: nat, call: Call)
    | Deliver(side: Side, thread: nat, datagram: Bytes)
    | Proceed(side: Side, thread: nat)

  function Serialised(ps: seq<Packet>): set<Bytes> {
    set p | p in ps :: EncodePacket(p)
  }

  /** Whether a datagram can be received and read as a packet. */
  predicate Readable(datagram: Bytes) {
    |datagram| <= BUFFER_MAX && ReadPacket(datagram).Parsed?
  }

  /** The packet-level action that an action on bytes amounts to, if it amounts to one. */
  function Meaning(s: ByteSystem, a: ByteAction): seq<Action> {
    match a
    case Local(side, t, call) => if call.CallReceive? then [] else [Begin(side, t, call)]
    case Deliver(side, t, d) =>
      if d in s.Towards(side) && Readable(d) then [Begin(side, t, CallReceive(ReadPacket(d).value))] else []
    case Proceed(side, t) => [Step(side, t)]
  }

  /** The call that reads a datagram off the network: `Received(received->Read<Packet>())`. */
  function AfterDelivery(e: Endpoint, t: nat, datagram: Bytes): Endpoint {
    if Readable(datagram) && t < |e.threads| && e.threads[t].Idle? then
      Begun(e, t, CallReceive(ReadPacket(datagram).value))
    else e
  }

  function EndpointAfterBytes(s: ByteSystem, e: Endpoint, a: ByteAction): Endpoint {
    match a
    case Local(_, t, call) =>
      if !call.CallReceive? && t < |e.threads| && e.threads[t].Idle? then Begun(e, t, call) else e
    case Deliver(side, t, d) => if d in s.Towards(side) then AfterDelivery(e, t, d) else e
    case Proceed(_, t) => if Enabled(e, t) then Continue(e, t) else e
  }

  /** One action; whatever departs is written into a buffer of its own and sent. */
  function ApplyBytes(s: ByteSystem, a: ByteAction): ByteSystem {
    if a.side.Left? then
      var left := EndpointAfterBytes(s, s.system.left, a);
      var sent := left.departed[|s.system.left.departed|..];
      ByteSystem(s.system.(left := left), s.toLeft, s.toRight + Serialised(sent))
    else
      var right := EndpointAfterBytes(s, s.system.right, a);
      var sent := right.departed[|s.system.right.departed|..];
      ByteSystem(s.system.(right := right), s.toLeft + Serialised(sent), s.toRight)
  }

  function RunBytes(s: ByteSystem, actions: seq<ByteAction>): ByteSystem {
    if actions == [] then s else ApplyBytes(RunBytes(s, actions[..|actions| - 1]), actions[|actions| - 1])
  }

  /** The datagrams under way are the encodings of the packets that have departed. */
  ghost predicate WiresAgree(s: ByteSystem) {
    s.toRight == Serialised(s.system.left.departed) && s.toLeft == Serialised(s.system.right.departed)
  }

  lemma SerialisedConcat(ps: seq<Packet>, qs: seq<Packet>)
    ensures Serialised(ps + qs) == Serialised(ps) + Serialised(qs)
  {
  }

  lemma DepartedGrows(s: ByteSystem, e: Endpoint, a: ByteAction)
    ensures e.departed <= EndpointAfterBytes(s, e, a).departed
  {
  }

  lemma WiresAgreeAfter(s: ByteSystem, a: ByteAction)
    requires WiresAgree(s)
    ensures WiresAgree(ApplyBytes(s, a))
  {
    var e := if a.side.Left? then s.system.left else s.system.right;
    var e' := EndpointAfterBytes(s, e, a);
    DepartedGrows(s, e, a);
    SerialisedConcat(e.departed, e'.departed[|e.departed|..]);
    assert e'.departed == e.departed + e'.departed[|e.departed|..];
  }

  /** A datagram on the wire reads as a packet that has departed. */
  lemma DatagramIsDeparted(ps: seq<Packet>, datagram: Bytes)
    requires datagram in Serialised(ps)
    ensures ReadPacket(datagram).Parsed? && ReadPacket(datagram).value in ps
    ensures Readable(datagram) <==> |ReadPacket(datagram).value.payload| <= 499
  {
    var p :| p in ps && EncodePacket(p) == datagram;
    PacketRoundTrip(p, []);
    assert EncodePacket(p) + [] == EncodePacket(p);
  }

  lemma EndpointMeaning(s: ByteSystem, e: Endpoint, peer: Endpoint, a: ByteAction)
    requires s.Towards(a.side) == Serialised(peer.departed)
    ensures Meaning(s, a) == [] ==> EndpointAfterBytes(s, e, a) == e
    ensures Meaning(s, a) != [] ==>
              |Meaning(s, a)| == 1 && Meaning(s, a)[0].side == a.side &&
              EndpointAfterBytes(s, e, a) == EndpointAfter(e, peer, Meaning(s, a)[0])
  {
    if a.Deliver? && a.datagram in s.Towards(a.side) {
      DatagramIsDeparted(peer.departed, a.datagram);
    }
  }

  /** One action on bytes is the action on packets that it means. */
  lemma ApplyMeaning(s: ByteSystem, a: ByteAction)
    requires WiresAgree(s)
    ensures ApplyBytes(s, a).system == Run(s.system, Meaning(s, a))
  {
    if a.side.Left? {
      EndpointMeaning(s, s.system.left, s.system.right, a);
    } else {
      EndpointMeaning(s, s.system.right, s.system.left, a);
    }
    var m := Meaning(s, a);
    if m != [] {
      assert m[..0] == [];
      assert Run(s.system, m) == Apply(s.system, m[0]);
    }
  }

  /** The packet-level run that a run on bytes amounts to. */
  function Meanings(s: ByteSystem, actions: seq<ByteAction>): seq<Action> {
    if actions == [] then []
    else
      var front := actions[..|actions| - 1];
      Meanings(s, front) + Meaning(RunBytes(s, front), actions[|actions| - 1])
  }

  /**
   Bytes refine packets: every run over datagrams, of any sizes, moves the endpoints exactly as a run over packets
   does.
   */
  lemma {:induction false} BytesRefinePackets(s: ByteSystem, actions: seq<ByteAction>)
    requires WiresAgree(s)
    ensures WiresAgree(RunBytes(s, actions))
    ensures RunBytes(s, actions).system == Run(s.system, Meanings(s, actions))
  {
    if actions != [] {
      var front, a := actions[..|actions| - 1], actions[|actions| - 1];
      var before := RunBytes(s, front);
      BytesRefinePackets(s, front);
      WiresAgreeAfter(before, a);
      ApplyMeaning(before, a);
      RunConcat(s.system, Meanings(s, front), Meaning(before, a));
    }
  }

  /** So what is delivered through serialisation and parsing is what was scheduled, byte for byte. */
  lemma InOrderExactlyOnceOverBytes(
    s: ByteSystem, leftStart: Id, rightStart: Id, actions: seq<ByteAction>, side: Side)
    requires Init(s.system, leftStart, rightStart) && WiresAgree(s)
    ensures var x, y := From(RunBytes(s, actions).system, side), To(RunBytes(s, actions).system, side);
            |x.scheduled| < LAP ==> IsPrefixOf(Reliables(y.Enqueued()), x.scheduled)
  {
    BytesRefinePackets(s, actions);
    InOrderExactlyOnce(s.system, leftStart, rightStart, Meanings(s, actions), side);
  }

  // ---------- and packets refine bytes, while every packet fits a datagram ----------

  predicate Fitting(p: Packet) {
    |p.payload| <= 499
  }

  predicate HoldsFitting(thread: Thread) {
    match thread
    case ScheduleWait(p) => Fitting(p)
    case ScheduleLocked(p) => Fitting(p)
    case LoadAck(p) => Fitting(p)
    case LookWait(p, _) => Fitting(p)
    case LookLocked(p, _) => Fitting(p)
    case _ => true
  }

  /** Every packet on its way out of the endpoint fits a datagram. */
  ghost predicate SendsFitting(e: Endpoint) {
    && (forall id :: id in e.conn.outgoing.reliable ==> Fitting(e.conn.outgoing.reliable[id]))
    && (forall i :: 0 <= i < |e.conn.outgoing.ready| ==> Fitting(e.conn.outgoing.ready[i]))
    && (forall i :: 0 <= i < |e.departed| ==> Fitting(e.departed[i]))
    && (forall t :: 0 <= t < |e.threads| ==> HoldsFitting(e.threads[t]))
  }

  lemma SendsFittingStep(e: Endpoint, t: nat)
    requires SendsFitting(e) && Enabled(e, t)
    ensures SendsFitting(Continue(e, t))
  {
    assert HoldsFitting(e.threads[t]);
  }

  lemma SendsFittingAfter(e: Endpoint, peer: Endpoint, a: Action)
    requires SendsFitting(e) && FittingCall(a)
    ensures SendsFitting(EndpointAfter(e, peer, a))
  {
    if a.Step? && Enabled(e, a.thread) {
      SendsFittingStep(e, a.thread);
    }
  }

  /** Applications schedule payloads of at most 499 bytes. */
  predicate FittingCall(a: Action) {
    a.Begin? && a.call.CallSchedule? ==> Fitting(a.call.packet)
  }

  /** The action on bytes that does what an action on packets does. */
  function Serialise(a: Action): ByteAction {
    match a
    case Begin(side, t, call) =>
      if call.CallReceive? then Deliver(side, t, EncodePacket(call.packet)) else Local(side, t, call)
    case Step(side, t) => Proceed(side, t)
  }

  function SerialiseAll(actions: seq<Action>): seq<ByteAction> {
    if actions == [] then [] else SerialiseAll(actions[..|actions| - 1]) + [Serialise(actions[|actions| - 1])]
  }

  lemma EndpointSerialised(s: ByteSystem, e: Endpoint, peer: Endpoint, a: Action)
    requires s.Towards(a.side) == Serialised(peer.departed) && SendsFitting(peer)
    ensures EndpointAfterBytes(s, e, Serialise(a)) == EndpointAfter(e, peer, a)
  {
    if a.Begin? && a.call.CallReceive? {
      var p := a.call.packet;
      PacketRoundTrip(p, []);
      assert EncodePacket(p) + [] == EncodePacket(p);
      if p in peer.departed {
        assert Fitting(p);
      } else if EncodePacket(p) in Serialised(peer.departed) {
        DatagramIsDeparted(peer.departed, EncodePacket(p));
      }
    }
  }

  /**
   Step for step: with payloads of at most 499 bytes, every run over packets is matched by a run over datagrams,
   each action by one action.
   */
  lemma {:induction false} PacketsRefineBytes(s: ByteSystem, actions: seq<Action>)
    requires WiresAgree(s) && SendsFitting(s.system.left) && SendsFitting(s.system.right)
    requires forall i :: 0 <= i < |actions| ==> FittingCall(actions[i])
    ensures RunBytes(s, SerialiseAll(actions)).system == Run(s.system, actions)
    ensures SendsFitting(Run(s.system, actions).left) && SendsFitting(Run(s.system, actions).right)
  {
    if actions != [] {
      var front, a := actions[..|actions| - 1], actions[|actions| - 1];
      PacketsRefineBytes(s, front);
      var before := RunBytes(s, SerialiseAll(front));
      BytesRefinePackets(s, SerialiseAll(front));
      assert SerialiseAll(actions)[..|SerialiseAll(actions)| - 1] == SerialiseAll(front);
      if a.side.Left? {
        EndpointSerialised(before, before.system.left, before.system.right, a);
        SendsFittingAfter(before.system.left, before.system.right, a);
      } else {
        EndpointSerialised(before, before.system.right, before.system.left, a);
        SendsFittingAfter(before.system.right, before.system.left, a);
      }
    }
  }
}
