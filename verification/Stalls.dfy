/**
 The exact limit of retransmission. Once both sides have fallen silent and the network has dropped everything, a
 lost packet can be repaired without further reliable traffic if and only if it is one of the four ids behind the
 peer's acknowledgement, or, while that is still 0, behind a kept packet among the last four ids of the cycle. So the
 lost end of a burst does not get through, nor, away from the end of the cycle, a first burst lost as a whole.
 */
module Stalls {
  import opened Ids
  import opened Packets
  import opened Connections
  import opened AckWindow
  import opened Endpoints
  import opened Network
  import opened Calls
  import opened Invariants
  import opened Theorems
  import opened Recovery

  /**
   The acknowledged ids the peer may still send, and the ids of the reliable packets that may still arrive: every
   kept packet that one of the acknowledgements reports on is among those that may arrive.
   */
  ghost predicate Heard(acks: set<Id>, reported: set<Id>, kept: map<Id, Packet>) {
    forall ackId, id :: ackId in acks && id in kept && id in Window(ackId) ==> id in reported
  }

  predicate OnlyReported(reported: set<Id>, p: Packet) {
    p.IsReliable() ==> p.id in reported
  }

  // ---------- the sending side ----------

  predicate SendsOnlyReported(acks: set<Id>, reported: set<Id>, thread: Thread) {
    && (thread.LoadAck? || thread.LookWait? || thread.LookLocked? ==> OnlyReported(reported, thread.packet))
    && (thread.ReceiveWait? || thread.AckWait? || thread.AckLocked? ==> thread.packet.ackId in acks)
  }

  /** All that is on its way to the peer is in `reported`, and all that is heard from the peer is in `acks`. */
  ghost predicate SenderStalled(acks: set<Id>, reported: set<Id>, x: Endpoint) {
    && Heard(acks, reported, x.conn.outgoing.reliable)
    && (forall i :: 0 <= i < |x.conn.outgoing.ready| ==> OnlyReported(reported, x.conn.outgoing.ready[i]))
    && (forall i :: 0 <= i < |x.departed| ==> OnlyReported(reported, x.departed[i]))
    && (forall t :: 0 <= t < |x.threads| ==> SendsOnlyReported(acks, reported, x.threads[t]))
  }

  lemma OutgoingStalls(acks: set<Id>, reported: set<Id>, out: Stream, thread: Thread, out': Stream)
    requires Heard(acks, reported, out.reliable)
    requires forall i :: 0 <= i < |out.ready| ==> OnlyReported(reported, out.ready[i])
    requires forall id :: id in out.reliable ==> KeptRightly(out.reliable[id], id)
    requires SendsOnlyReported(acks, reported, thread) && SchedulesNow(out, thread) == []
    requires out' == NextOutgoing(out, thread)
    ensures out'.reliable.Keys <= out.reliable.Keys && Heard(acks, reported, out'.reliable)
    ensures forall i :: 0 <= i < |out'.ready| ==> OnlyReported(reported, out'.ready[i])
  {
    if thread.AckLocked? && thread.visit > 0 {
      var ackId := thread.packet.ackId;
      assert WindowId(ackId, thread.visit - 1) == Window(ackId)[thread.visit - 1];
    }
  }

  lemma SenderStep(acks: set<Id>, reported: set<Id>, x: Endpoint, t: nat)
    requires SenderStalled(acks, reported, x) && IdsValid(x) && Enabled(x, t)
    requires Continue(x, t).scheduled == x.scheduled
    ensures SenderStalled(acks, reported, Continue(x, t))
    ensures Continue(x, t).conn.outgoing.reliable.Keys <= x.conn.outgoing.reliable.Keys
  {
    var out, thread := x.conn.outgoing, x.threads[t];
    assert SchedulesNow(out, thread) == [];
    OutgoingStalls(acks, reported, out, thread, NextOutgoing(out, thread));
    assert SendsOnlyReported(acks, reported, thread);
    assert SendsOnlyReported(acks, reported, NextThread(x.conn, thread));
  }

  lemma SenderMoves(acks: set<Id>, reported: set<Id>, received: set<Id>, x: Endpoint, y: Endpoint, a: Action)
    requires SenderStalled(acks, reported, x) && ReceiverStalled(acks, reported, received, y) && IdsValid(x)
    requires EndpointAfter(x, y, a).scheduled == x.scheduled
    ensures SenderStalled(acks, reported, EndpointAfter(x, y, a))
    ensures EndpointAfter(x, y, a).conn.outgoing.reliable.Keys <= x.conn.outgoing.reliable.Keys
  {
    match a
    case Begin(_, t, call) =>
    case Step(_, t) =>
      if Enabled(x, t) {
        SenderStep(acks, reported, x, t);
      }
  }

  lemma SenderGrows(acks: set<Id>, reported: set<Id>, acks': set<Id>, reported': set<Id>, x: Endpoint)
    requires SenderStalled(acks, reported, x) && acks <= acks' && reported <= reported'
    requires Heard(acks', reported', x.conn.outgoing.reliable)
    ensures SenderStalled(acks', reported', x)
  {
    forall t | 0 <= t < |x.threads|
      ensures SendsOnlyReported(acks', reported', x.threads[t])
    {
      assert SendsOnlyReported(acks, reported, x.threads[t]);
    }
  }

  // ---------- the receiving side ----------

  predicate HearsOnlyReported(acks: set<Id>, reported: set<Id>, thread: Thread) {
    && (thread.LookWait? || thread.LookLocked? ==> thread.packet.ackId in acks)
    && (thread.ReceiveWait? || thread.AckWait? || thread.AckLocked? ==> OnlyReported(reported, thread.packet))
    && (thread.TrackAck? || thread.Store? ==> thread.packet.id in reported)
  }

  /** All acknowledgements are in `acks`, and nothing but `reported` packets has arrived on top of `received`. */
  ghost predicate ReceiverStalled(acks: set<Id>, reported: set<Id>, received: set<Id>, y: Endpoint) {
    && y.conn.ackId in acks && y.conn.incoming.reliable.Keys <= received + reported
    && (forall i :: 0 <= i < |y.departed| ==> y.departed[i].ackId in acks)
    && (forall t :: 0 <= t < |y.threads| ==> HearsOnlyReported(acks, reported, y.threads[t]))
  }

  /** A step can move the acknowledgement, by a packet that may arrive. */
  ghost predicate AckMoves(reported: set<Id>, ackId: Id, ackId': Id) {
    ackId' == ackId || exists id :: id in reported && ackId' == UpdatedAck(ackId, id)
  }

  lemma ReceiverStep(acks: set<Id>, reported: set<Id>, received: set<Id>, y: Endpoint, t: nat)
    requires ReceiverStalled(acks, reported, received, y) && Enabled(y, t)
    ensures AckMoves(reported, y.conn.ackId, Continue(y, t).conn.ackId)
    ensures ReceiverStalled(acks + {Continue(y, t).conn.ackId}, reported, received, Continue(y, t))
  {
    var thread := y.threads[t];
    assert HearsOnlyReported(acks, reported, thread);
    assert HearsOnlyReported(acks, reported, NextThread(y.conn, thread));
  }

  lemma ReceiverMoves(acks: set<Id>, reported: set<Id>, received: set<Id>, x: Endpoint, y: Endpoint, a: Action)
    requires SenderStalled(acks, reported, x) && ReceiverStalled(acks, reported, received, y)
    ensures var y' := EndpointAfter(y, x, a);
            AckMoves(reported, y.conn.ackId, y'.conn.ackId) &&
            ReceiverStalled(acks + {y'.conn.ackId}, reported, received, y')
  {
    match a
    case Begin(_, t, call) => assert acks + {y.conn.ackId} == acks;
    case Step(_, t) =>
      if Enabled(y, t) {
        ReceiverStep(acks, reported, received, y, t);
      } else {
        assert acks + {y.conn.ackId} == acks;
      }
  }

  lemma ReceiverGrows(
    acks: set<Id>, reported: set<Id>, acks': set<Id>, reported': set<Id>, received: set<Id>, y: Endpoint)
    requires ReceiverStalled(acks, reported, received, y) && acks <= acks' && reported <= reported'
    ensures ReceiverStalled(acks', reported', received, y)
  {
    forall t | 0 <= t < |y.threads|
      ensures HearsOnlyReported(acks', reported', y.threads[t])
    {
      assert HearsOnlyReported(acks, reported, y.threads[t]);
    }
  }

  // ---------- which acknowledgements can follow one another ----------

  /**
   From the id `first`, with no packet arriving but those kept and reported, the acknowledgement can only move away
   from 0, and then to a kept packet that 0 reports on: the ids behind 0 are the last of the cycle.
   */
  function Successors(first: Id, kept: set<Id>): set<Id> {
    if first == INVALID_ID then set id | id in kept && id in Window(INVALID_ID) else {}
  }

  /** The acknowledged ids the peer has had so far, when it has got from `first` to `now`. */
  function AcksUntil(first: Id, kept: set<Id>, now: Id): set<Id> {
    if now == first then {first} else {first} + Successors(first, kept)
  }

  ghost function ReportedBy(acks: set<Id>, kept: set<Id>): set<Id> {
    set id | id in kept && exists ackId :: ackId in acks && id in Window(ackId)
  }

  lemma WindowKeepsAck(ackId: Id, id: Id)
    requires ackId != INVALID_ID && id in Window(ackId)
    ensures UpdatedAck(ackId, id) == ackId
  {
    assert id in [WindowId(ackId, 0), WindowId(ackId, 1), WindowId(ackId, 2), WindowId(ackId, 3)];
  }

  /** Among the last four ids of the cycle and those they report on, only the last four can move the others. */
  lemma LastFour(ackId: Id, id: Id, k: Id)
    requires ackId in Window(INVALID_ID) && k in Window(INVALID_ID) && id in Window(k)
    ensures UpdatedAck(ackId, id) == ackId || id in Window(INVALID_ID)
  {
    assert Window(INVALID_ID) == [65535, 65534, 65533, 65532];
    assert k >= 65532 && ackId >= 65532;
    assert id in [WindowId(k, 0), WindowId(k, 1), WindowId(k, 2), WindowId(k, 3)];
  }

  lemma AckStays(first: Id, kept: set<Id>, now: Id, id: Id)
    requires now == first || now in Successors(first, kept)
    requires id in ReportedBy(AcksUntil(first, kept, now), kept)
    ensures UpdatedAck(now, id) == now || UpdatedAck(now, id) in Successors(first, kept)
  {
    var ackId :| ackId in AcksUntil(first, kept, now) && id in Window(ackId);
    if first != INVALID_ID {
      WindowKeepsAck(now, id);
    } else if now != first && ackId != INVALID_ID {
      LastFour(now, id, ackId);
    }
  }

  lemma AcksGrow(first: Id, kept: set<Id>, now: Id, now': Id)
    requires now == first || now in Successors(first, kept)
    requires AckMoves(ReportedBy(AcksUntil(first, kept, now), kept), now, now')
    ensures now' == first || now' in Successors(first, kept)
    ensures AcksUntil(first, kept, now) + {now'} <= AcksUntil(first, kept, now')
  {
    if now' != now {
      var id :| id in ReportedBy(AcksUntil(first, kept, now), kept) && now' == UpdatedAck(now, id);
      AckStays(first, kept, now, id);
      assert first == INVALID_ID;
      LastAreValid(now');
    }
  }

  lemma LastAreValid(id: Id)
    requires id in Window(INVALID_ID)
    ensures id >= 65532
  {
    assert Window(INVALID_ID) == [65535, 65534, 65533, 65532];
  }

  // ---------- the system ----------

  /** Starting from the acknowledgement `first`, with the packets `kept` and `received`. */
  ghost predicate Stalled(first: Id, kept: set<Id>, received: set<Id>, x: Endpoint, y: Endpoint) {
    var acks := AcksUntil(first, kept, y.conn.ackId);
    && (y.conn.ackId == first || y.conn.ackId in Successors(first, kept))
    && x.conn.outgoing.reliable.Keys <= kept
    && SenderStalled(acks, ReportedBy(acks, kept), x)
    && ReceiverStalled(acks, ReportedBy(acks, kept), received, y)
  }

  lemma SenderKeepsStall(first: Id, kept: set<Id>, received: set<Id>, x: Endpoint, y: Endpoint, a: Action)
    requires Stalled(first, kept, received, x, y) && IdsValid(x)
    requires EndpointAfter(x, y, a).scheduled == x.scheduled
    ensures Stalled(first, kept, received, EndpointAfter(x, y, a), y)
  {
    var acks := AcksUntil(first, kept, y.conn.ackId);
    SenderMoves(acks, ReportedBy(acks, kept), received, x, y, a);
  }

  lemma ReceiverKeepsStall(first: Id, kept: set<Id>, received: set<Id>, x: Endpoint, y: Endpoint, a: Action)
    requires Stalled(first, kept, received, x, y)
    ensures Stalled(first, kept, received, x, EndpointAfter(y, x, a))
  {
    var now, now' := y.conn.ackId, EndpointAfter(y, x, a).conn.ackId;
    var acks, acks' := AcksUntil(first, kept, now), AcksUntil(first, kept, now');
    var reported, reported' := ReportedBy(acks, kept), ReportedBy(acks', kept);
    ReceiverMoves(acks, reported, received, x, y, a);
    AcksGrow(first, kept, now, now');
    assert reported <= reported';
    ReceiverGrows(acks + {now'}, reported, acks', reported', received, EndpointAfter(y, x, a));
    SenderGrows(acks, reported, acks', reported', x);
  }

  /** No run without a further reliable packet gets out of a stall. */
  lemma {:induction false} StallLasts(
    first: Id, kept: set<Id>, received: set<Id>, s: System, side: Side, more: seq<Action>)
    requires Stalled(first, kept, received, From(s, side), To(s, side)) && AllIdsValid(s)
    ensures From(s, side).scheduled <= From(Run(s, more), side).scheduled
    ensures From(Run(s, more), side).scheduled == From(s, side).scheduled ==>
              Stalled(first, kept, received, From(Run(s, more), side), To(Run(s, more), side))
  {
    if more != [] {
      var before, a := Run(s, more[..|more| - 1]), more[|more| - 1];
      StallLasts(first, kept, received, s, side, more[..|more| - 1]);
      ScheduledGrows(From(before, a.side), To(before, a.side), a);
      if From(Run(s, more), side).scheduled == From(s, side).scheduled {
        IdsFrom(s, more[..|more| - 1]);
        if a.side == side {
          SenderKeepsStall(first, kept, received, From(before, side), To(before, side), a);
        } else {
          ReceiverKeepsStall(first, kept, received, From(before, side), To(before, side), a);
        }
      }
    }
  }

  /** Every call has returned. */
  ghost predicate Quiet(e: Endpoint) {
    |e.threads| > 0 && forall t :: 0 <= t < |e.threads| ==> e.threads[t].Idle?
  }

  /** Nothing reliable is waiting to be sent. */
  ghost predicate Silent(e: Endpoint) {
    Quiet(e) && forall i :: 0 <= i < |e.conn.outgoing.ready| ==> !e.conn.outgoing.ready[i].IsReliable()
  }

  lemma QuietIsReady(e: Endpoint)
    requires Quiet(e) && LocksAgree(e)
    ensures Ready(e)
  {
  }

  lemma ReachableReady(s: System, leftStart: Id, rightStart: Id, actions: seq<Action>, s0: System, side: Side)
    requires Init(s, leftStart, rightStart) && s0 == AllLost(Run(s, actions)) && Quiet(From(s0, side))
    ensures Ready(From(s0, side))
  {
    UnconditionalAlways(s, leftStart, rightStart, actions);
    QuietIsReady(From(s0, side));
  }

  /** `more` brings the packet to the peer without any further reliable packet from this side. */
  ghost predicate Brings(s0: System, more: seq<Action>, side: Side, id: Id) {
    && From(Run(s0, more), side).scheduled == From(s0, side).scheduled
    && id in To(Run(s0, more), side).conn.incoming.reliable
  }

  /**
   What can still get through, as the sender could tell from the peer's acknowledged id and from what it keeps: one of
   the four ids behind the acknowledged one; or, while that is 0 and the four ids behind it are the last of the
   cycle, an id behind one of those that is kept.
   */
  ghost predicate Reportable(ackId: Id, kept: map<Id, Packet>, id: Id) {
    id in Window(ackId) || (ackId == INVALID_ID && exists k :: ReportedAfter(kept, k, id))
  }

  lemma AllReportable(first: Id, kept: map<Id, Packet>, now: Id, id: Id)
    requires id in ReportedBy(AcksUntil(first, kept.Keys, now), kept.Keys)
    ensures Reportable(first, kept, id)
  {
    var ackId :| ackId in AcksUntil(first, kept.Keys, now) && id in Window(ackId);
    if ackId != first {
      assert ReportedAfter(kept, ackId, id);
    }
  }

  /** A packet that is not reportable stays lost. */
  lemma UnreportableStaysLost(s0: System, side: Side, id: Id, ackId: Id, kept: map<Id, Packet>)
    requires AllIdsValid(s0) && From(s0, side).departed == [] && To(s0, side).departed == []
    requires Silent(From(s0, side)) && Quiet(To(s0, side))
    requires ackId == To(s0, side).conn.ackId && kept == From(s0, side).conn.outgoing.reliable
    requires id !in To(s0, side).conn.incoming.reliable && !Reportable(ackId, kept, id)
    ensures forall more :: !Brings(s0, more, side, id)
  {
    var received := To(s0, side).conn.incoming.reliable.Keys;
    assert Stalled(ackId, kept.Keys, received, From(s0, side), To(s0, side));
    forall more
      ensures !Brings(s0, more, side, id)
    {
      StallLasts(ackId, kept.Keys, received, s0, side, more);
      var now := To(Run(s0, more), side).conn.ackId;
      if id in ReportedBy(AcksUntil(ackId, kept.Keys, now), kept.Keys) {
        AllReportable(ackId, kept, now, id);
      }
    }
  }

  lemma ReportableIsBrought(s0: System, side: Side, id: Id) returns (more: seq<Action>)
    requires AllIdsValid(s0) && Ready(From(s0, side)) && Ready(To(s0, side))
    requires id in From(s0, side).conn.outgoing.reliable && id !in To(s0, side).conn.incoming.reliable
    requires Reportable(To(s0, side).conn.ackId, From(s0, side).conn.outgoing.reliable, id)
    ensures Brings(s0, more, side, id)
  {
    if id in Window(To(s0, side).conn.ackId) {
      more := Repairs(s0, side, id);
    } else {
      var k :| ReportedAfter(From(s0, side).conn.outgoing.reliable, k, id);
      more := RepairsInTwo(s0, side, k, id);
    }
  }

  /**
   In every reachable state in which all calls have returned, the sender has nothing reliable waiting, and the
   network then drops everything under way: a packet that the sender keeps and the peer lacks can still get there
   without further reliable packets if and only if it is `Reportable`.
   */
  lemma RepairableIff(
    s: System, leftStart: Id, rightStart: Id, actions: seq<Action>, s0: System, side: Side, id: Id)
    requires Init(s, leftStart, rightStart) && s0 == AllLost(Run(s, actions))
    requires Silent(From(s0, side)) && Quiet(To(s0, side))
    requires id in From(s0, side).conn.outgoing.reliable && id !in To(s0, side).conn.incoming.reliable
    ensures (exists more :: Brings(s0, more, side, id)) <==>
            Reportable(To(s0, side).conn.ackId, From(s0, side).conn.outgoing.reliable, id)
  {
    var ackId, kept := To(s0, side).conn.ackId, From(s0, side).conn.outgoing.reliable;
    ReachableIds(s, leftStart, rightStart, actions);
    if Reportable(ackId, kept, id) {
      ReachableReady(s, leftStart, rightStart, actions, s0, side);
      ReachableReady(s, leftStart, rightStart, actions, s0, Opposite(side));
      var more := ReportableIsBrought(s0, side, id);
    } else {
      UnreportableStaysLost(s0, side, id, ackId, kept);
    }
  }

  lemma LaterIsUnreported(start: Id, i: nat, j: nat)
    requires i < j < LAP - 4
    ensures IdAt(start, j + 1) !in Window(IdAt(start, i + 1))
  {
    var acked: int, later: int := IdAt(start, i + 1), IdAt(start, j + 1);
    assert later == acked + j - i || later == acked + j - i - LAP;
    forall k | 0 <= k < ACK_COUNT
      ensures WindowId(acked, k) != later
    {
      assert WindowId(acked, k) == acked - (k + 1) || WindowId(acked, k) == acked - (k + 1) + 0x1_0000;
    }
  }

  /** The same over the sender's stream. */
  lemma TailIsUnreported(start: Id, x: Endpoint, y: Endpoint, i: nat, j: nat)
    requires InLap(start, x, y) && Linked(x, y) && i < j < |x.scheduled| <= LAP - 4
    requires x.scheduled[j].id !in y.conn.incoming.reliable
    ensures x.scheduled[j].id in x.conn.outgoing.reliable
    ensures x.scheduled[i].id != INVALID_ID && x.scheduled[j].id !in Window(x.scheduled[i].id)
  {
    assert Numbered(start, x.scheduled);
    SuccIdAt(start, i);
    LaterIsUnreported(start, i, j);
  }

  /**
   So the end of a burst is not repaired: packets scheduled after the one the peer acknowledges, if lost, are kept
   by the sender for ever and do not get through unless more reliable packets are scheduled.
   */
  lemma TailStaysLost(
    s: System, leftStart: Id, rightStart: Id, actions: seq<Action>, s0: System, side: Side, i: nat, j: nat)
    requires Init(s, leftStart, rightStart) && s0 == AllLost(Run(s, actions))
    requires Silent(From(s0, side)) && Quiet(To(s0, side))
    requires i < j < |From(s0, side).scheduled| <= LAP - 4
    requires From(s0, side).scheduled[i].id == To(s0, side).conn.ackId
    requires From(s0, side).scheduled[j].id !in To(s0, side).conn.incoming.reliable
    ensures From(s0, side).scheduled[j].id in From(s0, side).conn.outgoing.reliable
    ensures forall more :: !Brings(s0, more, side, From(s0, side).scheduled[j].id)
  {
    var reached := Run(s, actions);
    Invariant(s, leftStart, rightStart, actions, side);
    TailIsUnreported(StartOf(leftStart, rightStart, side), From(reached, side), To(reached, side), i, j);
    ReachableIds(s, leftStart, rightStart, actions);
    UnreportableStaysLost(s0, side, From(s0, side).scheduled[j].id, To(s0, side).conn.ackId,
                        From(s0, side).conn.outgoing.reliable);
  }

  lemma KeptIsScheduled(start: Id, sent: seq<Packet>, out: Stream, id: Id) returns (i: nat)
    requires SendState(start, sent, out) && id in out.reliable
    ensures i < |sent| && sent[i].id == id
  {
    IdAtPosOf(start, id);
    i := PosOf(start, id) - 1;
  }

  lemma BehindTheLast(k: Id, id: Id)
    requires k in Window(INVALID_ID) && id in Window(k)
    ensures k >= 65532 && id >= 65528
  {
    LastAreValid(k);
    assert id in [WindowId(k, 0), WindowId(k, 1), WindowId(k, 2), WindowId(k, 3)];
  }

  lemma FirstIsUnreported(start: Id, sent: seq<Packet>, out: Stream, id: Id)
    requires SendState(start, sent, out)
    requires id < 65528 || (id < 65532 && forall i :: 0 <= i < |sent| ==> sent[i].id < 65532)
    ensures !Reportable(INVALID_ID, out.reliable, id)
  {
    if id in Window(INVALID_ID) {
      LastAreValid(id);
    } else if k :| ReportedAfter(out.reliable, k, id) {
      BehindTheLast(k, id);
      var i := KeptIsScheduled(start, sent, out, k);
    }
  }

  /**
   Nor is a first burst that is lost as a whole, away from the end of the cycle: while the peer has acknowledged
   nothing, a lost packet with an id below 65528, or below 65532 when no later id is in use, does not get through.
   */
  lemma FirstBurstStaysLost(
    s: System, leftStart: Id, rightStart: Id, actions: seq<Action>, s0: System, side: Side, j: nat)
    requires Init(s, leftStart, rightStart) && s0 == AllLost(Run(s, actions))
    requires Silent(From(s0, side)) && Quiet(To(s0, side)) && To(s0, side).conn.ackId == INVALID_ID
    requires j < |From(s0, side).scheduled| < LAP
    requires var sent := From(s0, side).scheduled;
             sent[j].id < 65528 || forall i :: 0 <= i < |sent| ==> sent[i].id < 65532
    requires From(s0, side).scheduled[j].id !in To(s0, side).conn.incoming.reliable
    ensures From(s0, side).scheduled[j].id in From(s0, side).conn.outgoing.reliable
    ensures forall more :: !Brings(s0, more, side, From(s0, side).scheduled[j].id)
  {
    var reached, id := Run(s, actions), From(s0, side).scheduled[j].id;
    Invariant(s, leftStart, rightStart, actions, side);
    FirstIsUnreported(StartOf(leftStart, rightStart, side), From(reached, side).scheduled,
                      From(reached, side).conn.outgoing, id);
    ReachableIds(s, leftStart, rightStart, actions);
    UnreportableStaysLost(s0, side, id, INVALID_ID, From(s0, side).conn.outgoing.reliable);
  }
}
