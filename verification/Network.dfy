/**
 Two endpoints and an unreliable network. Whatever has departed from an endpoint can be received by the other at
 any time, any number of times, in any order, or never: the network loses, duplicates and reorders. A run is a
 list of actions of any threads on either side; an action that is not possible when its turn comes does nothing.
 */
module Network {
  import opened Ids
  import opened Packets
  import opened Connections
  import opened Endpoints
  import opened Invariants
  import opened AckSoundness
  import opened Maximality

  datatype System = System(left: Endpoint, right: Endpoint)

  datatype Side = Left | Right

  function Opposite(side: Side): Side {
    if side.Left? then Right else Left
  }

  /** The endpoint that sends in the direction that starts at `side`, and the one that receives. */
  function From(s: System, side: Side): Endpoint {
    if side.Left? then s.left else s.right
  }

  function To(s: System, side: Side): Endpoint {
    From(s, Opposite(side))
  }

  /** A thread of one side starts a call, or makes its next step. */
  datatype Action =
    | Begin(side: Side, thread: nat, call: Call)
    | Step(side: Side, thread: nat)

  /** An endpoint nobody has used: no ids given out, no locks taken, at most a ping on its way. */
  ghost predicate InitEndpoint(e: Endpoint, outStart: Id, inStart: Id) {
    && e.conn == Conn(Stream(map[], [], outStart), Stream(map[], [], inStart), INVALID_ID)
    && e.outLock == FREE && e.inLock == FREE
    && (forall t :: 0 <= t < |e.threads| ==> e.threads[t].Idle?)
    && e.scheduled == [] && e.popped == [] && e.consumed == [] && e.arrivals == []
    && (forall i :: 0 <= i < |e.departed| ==> e.departed[i] == Make(Ping, 0, []))
  }

  /** The sequence numbers match: each side expects the ids the other will give out. */
  ghost predicate Init(s: System, leftStart: Id, rightStart: Id) {
    InitEndpoint(s.left, leftStart, rightStart) && InitEndpoint(s.right, rightStart, leftStart)
  }

  predicate CanBegin(e: Endpoint, peer: Endpoint, t: nat, call: Call) {
    t < |e.threads| && e.threads[t].Idle? && (call.CallReceive? ==> call.packet in peer.departed)
  }

  function Begun(e: Endpoint, t: nat, call: Call): Endpoint
    requires t < |e.threads|
  {
    e.(threads := e.threads[t := Start(call)])
  }

  function EndpointAfter(e: Endpoint, peer: Endpoint, a: Action): Endpoint {
    match a
    case Begin(_, t, call) => if CanBegin(e, peer, t, call) then Begun(e, t, call) else e
    case Step(_, t) => if Enabled(e, t) then Continue(e, t) else e
  }

  function Apply(s: System, a: Action): System {
    if a.side.Left? then s.(left := EndpointAfter(s.left, s.right, a))
    else s.(right := EndpointAfter(s.right, s.left, a))
  }

  function Run(s: System, actions: seq<Action>): System {
    if actions == [] then s else Apply(Run(s, actions[..|actions| - 1]), actions[|actions| - 1])
  }

  lemma {:induction false} RunConcat(s: System, actions: seq<Action>, more: seq<Action>)
    ensures Run(s, actions + more) == Run(Run(s, actions), more)
  {
    if more == [] {
      assert actions + more == actions;
    } else {
      assert (actions + more)[..|actions + more| - 1] == actions + more[..|more| - 1];
      RunConcat(s, actions, more[..|more| - 1]);
    }
  }

  lemma RunAppend(s: System, actions: seq<Action>, a: Action)
    ensures Run(s, actions + [a]) == Apply(Run(s, actions), a)
  {
    assert (actions + [a])[..|actions + [a]| - 1] == actions;
  }

  /** A run continued twice is a run continued by both. */
  lemma RunRegroup(s: System, actions: seq<Action>, one: seq<Action>, two: seq<Action>)
    ensures Run(s, actions + one + two) == Run(s, actions + (one + two))
  {
    assert actions + one + two == actions + (one + two);
  }

  // ---------- what holds in every reachable state, for any number of packets ----------

  predicate ValidId(p: Packet) {
    p.IsReliable() ==> p.id != INVALID_ID
  }

  /** A packet is kept for retransmission under its own id. */
  predicate KeptRightly(p: Packet, id: Id) {
    p.IsReliable() && p.id == id && id != INVALID_ID
  }

  /**
   Reliable packets carry ids: those kept, ready, on their way out or in, and departed. And once a packet has been
   stored, something has been acknowledged.
   */
  ghost predicate IdsValid(e: Endpoint) {
    && (e.conn.ackId == INVALID_ID ==> e.conn.incoming.reliable == map[])
    && (forall id :: id in e.conn.outgoing.reliable ==> KeptRightly(e.conn.outgoing.reliable[id], id))
    && (forall i :: 0 <= i < |e.conn.outgoing.ready| ==> ValidId(e.conn.outgoing.ready[i]))
    && (forall i :: 0 <= i < |e.scheduled| ==> e.scheduled[i].id != INVALID_ID)
    && (forall i :: 0 <= i < |e.departed| ==> ValidId(e.departed[i]))
    && (forall t :: 0 <= t < |e.threads| ==> ThreadIdValid(e.conn.ackId, e.threads[t]))
  }

  predicate ThreadIdValid(ackId: Id, thread: Thread) {
    match thread
    case LoadAck(p) => ValidId(p)
    case LookWait(p, _) => ValidId(p)
    case LookLocked(p, _) => ValidId(p)
    case ReceiveWait(p) => ValidId(p)
    case AckWait(p, _) => ValidId(p)
    case AckLocked(p, _) => ValidId(p)
    case TrackAck(p) => p.id != INVALID_ID
    case Store(_) => ackId != INVALID_ID
    case Drain => ackId != INVALID_ID
    case _ => true
  }

  lemma ValidIdsPassAssertions(e: Endpoint)
    requires IdsValid(e)
    ensures AssertionsHold(e)
  {
    forall i | 0 <= i < |e.threads|
      ensures ThreadIdValid(e.conn.ackId, e.threads[i])
    {
    }
  }

  ghost predicate Sound(e: Endpoint) {
    LocksAgree(e) && IdsValid(e) && AckSide(e) && ArrivalSide(e)
  }

  /** One direction, from `x` to `y`, without bound on the number of packets. */
  ghost predicate Linked(x: Endpoint, y: Endpoint) {
    && HeldAcksSound(x, y.conn.incoming.reliable)
    && Covered(x.scheduled, x.conn.outgoing.reliable, y.conn.incoming.reliable)
  }

  lemma ThreadIdStep(e: Endpoint, t: nat, i: nat)
    requires IdsValid(e) && Enabled(e, t) && i < |e.threads|
    ensures ThreadIdValid(Continue(e, t).conn.ackId, Continue(e, t).threads[i])
  {
    assert ThreadIdValid(e.conn.ackId, e.threads[t]) && ThreadIdValid(e.conn.ackId, e.threads[i]);
  }

  lemma IdsValidStep(e: Endpoint, t: nat)
    requires IdsValid(e) && Enabled(e, t)
    ensures IdsValid(Continue(e, t))
  {
    assert ThreadIdValid(e.conn.ackId, e.threads[t]);
    forall i | 0 <= i < |e.threads|
      ensures ThreadIdValid(Continue(e, t).conn.ackId, Continue(e, t).threads[i])
    {
      ThreadIdStep(e, t, i);
    }
  }

  lemma SoundAfter(e: Endpoint, peer: Endpoint, a: Action)
    requires Sound(e) && IdsValid(peer)
    ensures Sound(EndpointAfter(e, peer, a))
  {
    match a
    case Begin(_, t, call) =>
      if CanBegin(e, peer, t, call) {
        BeginKeepsLocks(e, t, call);
        BeginKeepsIds(e, t, call);
        BeginKeepsAckSide(e, t, call);
        BeginKeepsArrivals(e, t, call);
      }
    case Step(_, t) =>
      if Enabled(e, t) {
        LocksStep(e, t);
        IdsValidStep(e, t);
        AckSideStep(e, t);
        ArrivalSideStep(e, t);
      }
  }

  lemma BeginKeepsLocks(e: Endpoint, t: nat, call: Call)
    requires LocksAgree(e) && t < |e.threads| && e.threads[t].Idle?
    ensures LocksAgree(Begun(e, t, call))
  {
  }

  lemma BeginKeepsIds(e: Endpoint, t: nat, call: Call)
    requires IdsValid(e) && t < |e.threads| && (call.CallReceive? ==> ValidId(call.packet))
    ensures IdsValid(Begun(e, t, call))
  {
  }

  lemma BeginKeepsArrivals(e: Endpoint, t: nat, call: Call)
    requires ArrivalSide(e) && t < |e.threads|
    ensures ArrivalSide(Begun(e, t, call))
  {
    assert Begun(e, t, call).Enqueued() == e.Enqueued();
  }

  lemma BeginKeepsAckSide(e: Endpoint, t: nat, call: Call)
    requires AckSide(e) && t < |e.threads| && e.threads[t].Idle?
    ensures AckSide(Begun(e, t, call))
  {
    var e' := Begun(e, t, call);
    var received := e.conn.incoming.reliable;
    forall id | Named(e.threads, received, id)
      ensures Named(e'.threads, received, id)
    {
      if w :| 0 <= w < |e.threads| && e.threads[w].Store? && e.threads[w].packet.id == id {
        assert e'.threads[w] == e.threads[w];
      }
    }
    forall i | 0 <= i < |e'.threads|
      ensures LookingSound(e'.threads, received, e'.threads[i])
    {
      assert e'.threads[i] == e.threads[i] || e'.threads[i] == Start(call);
      LookingStep(e.threads, e'.threads, received, received, e'.threads[i]);
    }
  }

  /** `x` moves. */
  lemma LinkedAfterSender(x: Endpoint, y: Endpoint, a: Action)
    requires Linked(x, y) && IdsValid(x) && AckSide(y)
    ensures Linked(EndpointAfter(x, y, a), y)
  {
    var received := y.conn.incoming.reliable;
    match a
    case Begin(_, t, call) =>
      if CanBegin(x, y, t, call) && call.CallReceive? {
        var i :| 0 <= i < |y.departed| && y.departed[i] == call.packet;
        assert AckSound(call.packet, received);
      }
    case Step(_, t) =>
      if Enabled(x, t) {
        HeldAcksStep(x, t, received);
        CoveredStep(x, t, received);
      }
  }

  /** `y` moves. */
  lemma LinkedAfterReceiver(x: Endpoint, y: Endpoint, a: Action)
    requires Linked(x, y)
    ensures Linked(x, EndpointAfter(y, x, a))
  {
    var received, received' := y.conn.incoming.reliable, EndpointAfter(y, x, a).conn.incoming.reliable;
    assert received.Keys <= received'.Keys;
    forall t | 0 <= t < |x.threads| && ProcessesAcks(x.threads[t])
      ensures AckSound(x.threads[t].packet, received')
    {
      AckSoundGrows(x.threads[t].packet, received, received');
    }
  }

  ghost predicate Unconditional(s: System) {
    Sound(s.left) && Sound(s.right) && Linked(s.left, s.right) && Linked(s.right, s.left)
  }

  lemma UnconditionalAfter(s: System, a: Action)
    requires Unconditional(s)
    ensures Unconditional(Apply(s, a))
  {
    if a.side.Left? {
      SoundAfter(s.left, s.right, a);
      LinkedAfterSender(s.left, s.right, a);
      LinkedAfterReceiver(s.right, s.left, a);
    } else {
      SoundAfter(s.right, s.left, a);
      LinkedAfterSender(s.right, s.left, a);
      LinkedAfterReceiver(s.left, s.right, a);
    }
  }

  lemma PingIsUnreliable()
    ensures !Make(Ping, 0, []).IsReliable()
  {
  }

  lemma InitSound(e: Endpoint, outStart: Id, inStart: Id)
    requires InitEndpoint(e, outStart, inStart)
    ensures Sound(e)
  {
    PingIsUnreliable();
  }

  lemma {:induction false} UnconditionalAlways(s: System, leftStart: Id, rightStart: Id, actions: seq<Action>)
    requires Init(s, leftStart, rightStart)
    ensures Unconditional(Run(s, actions))
  {
    if actions == [] {
      InitSound(s.left, leftStart, rightStart);
      InitSound(s.right, rightStart, leftStart);
    } else {
      UnconditionalAlways(s, leftStart, rightStart, actions[..|actions| - 1]);
      UnconditionalAfter(Run(s, actions[..|actions| - 1]), actions[|actions| - 1]);
    }
  }

  // ---------- what holds within a lap of ids ----------

  /** One direction, from `x` to `y`, while the ids of `x` have not gone round. */
  ghost predicate InLap(start: Id, x: Endpoint, y: Endpoint) {
    |x.scheduled| < LAP ==> SendSide(start, x) && RecvSide(start, x.scheduled, y)
  }

  ghost predicate InHalfLap(start: Id, x: Endpoint, y: Endpoint) {
    |x.scheduled| <= HALF_ID ==> MaxSide(start, x.scheduled, y)
  }

  lemma ScheduledGrows(e: Endpoint, peer: Endpoint, a: Action)
    ensures e.scheduled <= EndpointAfter(e, peer, a).scheduled
  {
  }

  lemma InLapAfterSender(start: Id, x: Endpoint, y: Endpoint, a: Action)
    requires InLap(start, x, y)
    ensures InLap(start, EndpointAfter(x, y, a), y)
  {
    var x' := EndpointAfter(x, y, a);
    ScheduledGrows(x, y, a);
    if |x'.scheduled| < LAP {
      match a
      case Begin(_, t, call) =>
      case Step(_, t) =>
        if Enabled(x, t) {
          SendSideStep(start, x, t);
          RecvSideGrows(start, x.scheduled, SchedulesNow(x.conn.outgoing, x.threads[t]), y);
        }
    }
  }

  lemma InLapAfterReceiver(start: Id, x: Endpoint, y: Endpoint, a: Action)
    requires InLap(start, x, y)
    ensures InLap(start, x, EndpointAfter(y, x, a))
  {
    if |x.scheduled| < LAP {
      match a
      case Begin(_, t, call) =>
        if CanBegin(y, x, t, call) && call.CallReceive? {
          var i :| 0 <= i < |x.departed| && x.departed[i] == call.packet;
          assert Genuine(start, x.scheduled, call.packet);
        }
      case Step(_, t) =>
        if Enabled(y, t) {
          RecvSideStep(start, x.scheduled, y, t);
        }
    }
  }

  lemma InHalfLapAfterSender(start: Id, x: Endpoint, y: Endpoint, a: Action)
    requires InHalfLap(start, x, y)
    ensures InHalfLap(start, EndpointAfter(x, y, a), y)
  {
    ScheduledGrows(x, y, a);
  }

  lemma BeginKeepsDrain(threads: seq<Thread>, t: nat, thread: Thread)
    requires t < |threads| && threads[t].Idle? && SomeDrain(threads)
    ensures SomeDrain(threads[t := thread])
  {
    var w :| 0 <= w < |threads| && threads[w].Drain?;
    assert threads[t := thread][w].Drain?;
  }

  lemma BeginKeepsMaxSide(start: Id, sent: seq<Packet>, y: Endpoint, t: nat, call: Call)
    requires MaxSide(start, sent, y) && t < |y.threads| && y.threads[t].Idle?
    ensures MaxSide(start, sent, Begun(y, t, call))
  {
    assert Begun(y, t, call).Enqueued() == y.Enqueued();
    if SomeDrain(y.threads) {
      BeginKeepsDrain(y.threads, t, Start(call));
    }
  }

  lemma MaxSideAfter(start: Id, sent: seq<Packet>, y: Endpoint, x: Endpoint, a: Action)
    requires MaxSide(start, sent, y) && RecvSide(start, sent, y) && |sent| <= HALF_ID
    ensures MaxSide(start, sent, EndpointAfter(y, x, a))
  {
    match a
    case Begin(_, t, call) =>
      if CanBegin(y, x, t, call) {
        BeginKeepsMaxSide(start, sent, y, t, call);
      }
    case Step(_, t) =>
      if Enabled(y, t) {
        MaxSideStep(start, sent, y, t);
      }
  }

  lemma InHalfLapAfterReceiver(start: Id, x: Endpoint, y: Endpoint, a: Action)
    requires InLap(start, x, y) && InHalfLap(start, x, y)
    ensures InHalfLap(start, x, EndpointAfter(y, x, a))
  {
    if |x.scheduled| <= HALF_ID {
      MaxSideAfter(start, x.scheduled, y, x, a);
    }
  }

  ghost predicate Bounded(s: System, leftStart: Id, rightStart: Id) {
    && InLap(leftStart, s.left, s.right) && InLap(rightStart, s.right, s.left)
    && InHalfLap(leftStart, s.left, s.right) && InHalfLap(rightStart, s.right, s.left)
  }

  lemma {:induction false} BoundedAlways(s: System, leftStart: Id, rightStart: Id, actions: seq<Action>)
    requires Init(s, leftStart, rightStart)
    ensures Bounded(Run(s, actions), leftStart, rightStart)
  {
    if actions == [] {
      InitBounded(leftStart, rightStart, s.left, s.right);
      InitBounded(rightStart, leftStart, s.right, s.left);
    } else {
      BoundedAlways(s, leftStart, rightStart, actions[..|actions| - 1]);
      var before, a := Run(s, actions[..|actions| - 1]), actions[|actions| - 1];
      if a.side.Left? {
        InLapAfterSender(leftStart, before.left, before.right, a);
        InLapAfterReceiver(rightStart, before.right, before.left, a);
        InHalfLapAfterSender(leftStart, before.left, before.right, a);
        InHalfLapAfterReceiver(rightStart, before.right, before.left, a);
      } else {
        InLapAfterSender(rightStart, before.right, before.left, a);
        InLapAfterReceiver(leftStart, before.left, before.right, a);
        InHalfLapAfterSender(rightStart, before.right, before.left, a);
        InHalfLapAfterReceiver(leftStart, before.left, before.right, a);
      }
    }
  }

  lemma InitBounded(start: Id, peerStart: Id, x: Endpoint, y: Endpoint)
    requires InitEndpoint(x, start, peerStart) && InitEndpoint(y, peerStart, start)
    ensures InLap(start, x, y) && InHalfLap(start, x, y)
  {
    PingIsUnreliable();
  }
}
