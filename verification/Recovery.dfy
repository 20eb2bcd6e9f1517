/**
 Retransmission works: whatever has happened so far, a packet the network has lost can still be repaired by
 ordinary traffic while the peer's acknowledgement reports on it. The peer sends anything at all, its header
 shows the gap, the sender makes another copy ready, and the copy departs and arrives.
 */
module Recovery {
  import opened Ids
  import opened Packets
  import opened Connections
  import opened AckWindow
  import opened Endpoints
  import opened Network
  import opened Calls

  /** `x` keeps a packet that `y` lacks, and the next acknowledgement of `y` will report on it. */
  ghost predicate Missing(x: Endpoint, y: Endpoint, id: Id) {
    id in x.conn.outgoing.reliable && id !in y.conn.incoming.reliable && id in Window(y.conn.ackId)
  }

  lemma {:induction false} SelectContains(kept: map<Id, Packet>, ids: seq<Id>, unwanted: set<Id>, id: Id)
    returns (i: nat)
    requires id in ids && id in kept && id !in unwanted
    ensures i < |Select(kept, ids, unwanted)| && Select(kept, ids, unwanted)[i] == kept[id]
  {
    var n := |ids| - 1;
    if ids[n] == id {
      i := |Select(kept, ids[..n], unwanted)|;
    } else {
      assert ids == ids[..n] + [ids[n]];
      i := SelectContains(kept, ids[..n], unwanted, id);
    }
  }

  /** What an acknowledgement of `ackId` says has been received. */
  function Acknowledged(ackId: Id, received: map<Id, Packet>): set<Id> {
    {ackId} + set id | id in Window(ackId) && id in received
  }

  /** Processing the peer's header makes a copy of the missing packet ready. */
  lemma MadeReady(out: Stream, p: Packet, ackId: Id, received: map<Id, Packet>, id: Id, after: Stream) returns (k: nat)
    requires after == AfterAckVisits(out, AckHeader(p, ackId, received, ACK_COUNT), ACK_COUNT + 1)
    requires id in out.reliable && id !in received && id in Window(ackId)
    ensures k < |after.ready| && after.ready[k] == out.reliable[id]
    ensures after.reliable == out.reliable - Acknowledged(ackId, received)
  {
    AckRoundTrip(out, p, ackId, received);
    var i := SelectContains(out.reliable, Window(ackId), received.Keys, id);
    k := |out.ready| + i;
  }

  /** One side sends; what it has scheduled, keeps and has received stays as it is. */
  ghost predicate OnlySends(s0: System, s1: System, side: Side) {
    var e, e' := From(s0, side), From(s1, side);
    && Continues(s0, s1, side) && e'.scheduled == e.scheduled && e'.consumed == e.consumed
    && e'.conn.outgoing.reliable == e.conn.outgoing.reliable
    && e'.conn.incoming == e.conn.incoming && e'.conn.ackId == e.conn.ackId
  }

  /** Whatever is ready can depart, with the acknowledgement of the moment. */
  lemma {:induction false} SendsUntil(s: System, actions: seq<Action>, s0: System, side: Side, k: nat)
    returns (more: seq<Action>)
    requires s0 == Run(s, actions) && Ready(From(s0, side)) && k < |From(s0, side).conn.outgoing.ready|
    ensures var s1, e := Run(s, actions + more), From(s0, side);
            && OnlySends(s0, s1, side)
            && AckHeader(e.conn.outgoing.ready[k], e.conn.ackId, e.conn.incoming.reliable, ACK_COUNT)
               in From(s1, side).departed
    decreases k
  {
    var e := From(s0, side);
    var one := CallSends(s, actions, s0, side, 0);
    var s1 := Run(s, actions + one);
    if k == 0 {
      more := one;
    } else {
      assert From(s1, side).conn.outgoing.ready[k - 1] == e.conn.outgoing.ready[k];
      var rest := SendsUntil(s, actions + one, s1, side, k - 1);
      more := one + rest;
      RunRegroup(s, actions, one, rest);
    }
  }

  /** A side with nothing to send can always send an unreliable packet, as the clients do with pings. */
  lemma SomethingReady(s: System, actions: seq<Action>, s0: System, side: Side) returns (more: seq<Action>)
    requires s0 == Run(s, actions) && Ready(From(s0, side))
    ensures OnlySends(s0, Run(s, actions + more), side)
    ensures From(Run(s, actions + more), side).conn.outgoing.ready != []
  {
    if From(s0, side).conn.outgoing.ready == [] {
      PingIsUnreliable();
      more := CallSchedules(s, actions, s0, side, 0, Make(Ping, 0, []));
    } else {
      more := [];
      assert actions + more == actions;
    }
  }

  /** A side can always send an acknowledgement of what it has received. */
  lemma Acknowledges(s: System, actions: seq<Action>, s0: System, side: Side) returns (more: seq<Action>, p: Packet)
    requires s0 == Run(s, actions) && Ready(From(s0, side))
    ensures var s1, e := Run(s, actions + more), From(s0, side);
            && OnlySends(s0, s1, side)
            && AckHeader(p, e.conn.ackId, e.conn.incoming.reliable, ACK_COUNT) in From(s1, side).departed
  {
    var one := SomethingReady(s, actions, s0, side);
    var s1 := Run(s, actions + one);
    p := From(s1, side).conn.outgoing.ready[0];
    var two := SendsUntil(s, actions + one, s1, side, 0);
    more := one + two;
    RunRegroup(s, actions, one, two);
  }

  ghost predicate AllIdsValid(s: System) {
    IdsValid(s.left) && IdsValid(s.right)
  }

  lemma IdsAfter(e: Endpoint, peer: Endpoint, a: Action)
    requires IdsValid(e) && IdsValid(peer)
    ensures IdsValid(EndpointAfter(e, peer, a))
  {
    match a
    case Begin(_, t, call) =>
      if CanBegin(e, peer, t, call) {
        BeginKeepsIds(e, t, call);
      }
    case Step(_, t) =>
      if Enabled(e, t) {
        IdsValidStep(e, t);
      }
  }

  lemma {:induction false} IdsFrom(s: System, actions: seq<Action>)
    requires AllIdsValid(s)
    ensures AllIdsValid(Run(s, actions))
  {
    if actions != [] {
      var before, a := Run(s, actions[..|actions| - 1]), actions[|actions| - 1];
      IdsFrom(s, actions[..|actions| - 1]);
      IdsAfter(From(before, a.side), To(before, a.side), a);
    }
  }

  /** Everything that departs in a run can be received. */
  lemma DepartedIsValid(s: System, actions: seq<Action>, s0: System, side: Side, p: Packet)
    requires AllIdsValid(s) && s0 == Run(s, actions) && p in From(s0, side).departed
    ensures ValidId(p)
  {
    IdsFrom(s, actions);
    assert IdsValid(From(s0, side));
  }

  lemma KeptIsReliable(s: System, actions: seq<Action>, s0: System, side: Side, id: Id)
    requires AllIdsValid(s) && s0 == Run(s, actions) && id in From(s0, side).conn.outgoing.reliable
    ensures KeptRightly(From(s0, side).conn.outgoing.reliable[id], id)
  {
    IdsFrom(s, actions);
    assert IdsValid(From(s0, side));
  }

  /** One side receives what the other has sent; its acknowledgement is processed. */
  lemma HeaderArrives(s: System, actions: seq<Action>, s0: System, side: Side, h: Packet) returns (more: seq<Action>)
    requires AllIdsValid(s) && s0 == Run(s, actions) && Ready(From(s0, side)) && h in To(s0, side).departed
    ensures var s1 := Run(s, actions + more);
            && Ready(From(s1, side)) && To(s1, side) == To(s0, side)
            && From(s1, side).scheduled == From(s0, side).scheduled
            && From(s1, side).conn.outgoing == AfterAckVisits(From(s0, side).conn.outgoing, h, ACK_COUNT + 1)
  {
    DepartedIsValid(s, actions, s0, Opposite(side), h);
    more := CallReceives(s, actions, s0, side, 0, h);
  }

  /** The receiving side sends anything, the sending side receives it, and a copy of the missing packet is ready. */
  lemma GapIsReported(s: System, actions: seq<Action>, s0: System, side: Side, id: Id)
    returns (more: seq<Action>, k: nat)
    requires AllIdsValid(s) && s0 == Run(s, actions)
    requires Ready(From(s0, side)) && Ready(To(s0, side)) && Missing(From(s0, side), To(s0, side), id)
    ensures var s1 := Run(s, actions + more);
            var x, y, x', y' := From(s0, side), To(s0, side), From(s1, side), To(s1, side);
            && Ready(x') && Ready(y') && x'.scheduled == x.scheduled && y'.scheduled == y.scheduled
            && y'.conn.incoming == y.conn.incoming && y'.conn.ackId == y.conn.ackId && y'.consumed == y.consumed
            && x'.conn.outgoing.reliable ==
               x.conn.outgoing.reliable - Acknowledged(y.conn.ackId, y.conn.incoming.reliable)
            && k < |x'.conn.outgoing.ready| && x'.conn.outgoing.ready[k] == x.conn.outgoing.reliable[id]
  {
    var one, p := Acknowledges(s, actions, s0, Opposite(side));
    var x, y := From(s0, side), To(s0, side);
    var h := AckHeader(p, y.conn.ackId, y.conn.incoming.reliable, ACK_COUNT);
    var two := HeaderArrives(s, actions + one, Run(s, actions + one), side, h);
    more := one + two;
    RunRegroup(s, actions, one, two);
    k := MadeReady(x.conn.outgoing, p, y.conn.ackId, y.conn.incoming.reliable, id,
                   From(Run(s, actions + more), side).conn.outgoing);
  }

  /** A copy that is ready departs and arrives. */
  lemma CopyArrives(s: System, actions: seq<Action>, s0: System, side: Side, k: nat)
    returns (more: seq<Action>, p: Packet)
    requires AllIdsValid(s) && s0 == Run(s, actions)
    requires Ready(From(s0, side)) && Ready(To(s0, side)) && k < |From(s0, side).conn.outgoing.ready|
    ensures var s1 := Run(s, actions + more);
            var x, y, x', y' := From(s0, side), To(s0, side), From(s1, side), To(s1, side);
            && Ready(x') && Ready(y') && x'.conn.outgoing.reliable == x.conn.outgoing.reliable
            && x'.scheduled == x.scheduled && y'.scheduled == y.scheduled && y'.consumed == y.consumed
            && p.Content() == x.conn.outgoing.ready[k].Content() && ValidId(p)
            && y'.conn.incoming == IncomingAfter(y.conn.incoming, y.conn.ackId, p)
            && y'.conn.ackId == AckIdAfter(y.conn.ackId, p)
  {
    var x := From(s0, side);
    var one := SendsUntil(s, actions, s0, side, k);
    var s1 := Run(s, actions + one);
    p := AckHeader(x.conn.outgoing.ready[k], x.conn.ackId, x.conn.incoming.reliable, ACK_COUNT);
    HeaderBits(x.conn.outgoing.ready[k], x.conn.ackId, x.conn.incoming.reliable, ACK_COUNT, 0);
    DepartedIsValid(s, actions + one, s1, side, p);
    var two := CallReceives(s, actions + one, s1, Opposite(side), 0, p);
    more := one + two;
    RunRegroup(s, actions, one, two);
  }

  /** A packet reported missing and awaited next is not behind the acknowledgement after its arrival. */
  lemma AwaitedIsReleased(ackId: Id, sequence: Id, id: Id)
    requires id in Window(ackId) && id == Succ(sequence)
    ensures sequence != UpdatedAck(ackId, id)
  {
    assert id in [WindowId(ackId, 0), WindowId(ackId, 1), WindowId(ackId, 2), WindowId(ackId, 3)];
  }

  /** What the arrival of a reported packet does; the packet awaited next is released at once. */
  lemma StoredAndReleased(inc: Stream, ackId: Id, p: Packet, inc': Stream)
    requires p.IsReliable() && p.id != INVALID_ID && p.id in Window(ackId) && inc' == IncomingAfter(inc, ackId, p)
    ensures inc'.reliable == inc.reliable[p.id := p] && inc.ready <= inc'.ready
    ensures p.id == Succ(inc.sequence) ==> inc.ready < inc'.ready && inc'.ready[|inc.ready|] == p
  {
    if p.id == Succ(inc.sequence) {
      AwaitedIsReleased(ackId, inc.sequence, p.id);
    }
  }

  /** The network drops everything that is under way. */
  function AllLost(s: System): System {
    System(s.left.(departed := []), s.right.(departed := []))
  }

  lemma ReachableIds(s: System, leftStart: Id, rightStart: Id, actions: seq<Action>)
    requires Init(s, leftStart, rightStart)
    ensures AllIdsValid(Run(s, actions)) && AllIdsValid(AllLost(Run(s, actions)))
  {
    UnconditionalAlways(s, leftStart, rightStart, actions);
  }

  /** `id` has arrived between `s0` and `s1`, with the content kept for it, and without further reliable traffic. */
  ghost predicate Repaired(s0: System, s1: System, side: Side, id: Id) {
    var x, inc, inc' := From(s0, side), To(s0, side).conn.incoming, To(s1, side).conn.incoming;
    && From(s1, side).scheduled == x.scheduled && To(s1, side).scheduled == To(s0, side).scheduled
    && id in x.conn.outgoing.reliable && id in inc'.reliable
    && inc'.reliable[id].Content() == x.conn.outgoing.reliable[id].Content()
    && (id == Succ(inc.sequence) ==>
          inc.ready < inc'.ready && inc'.ready[|inc.ready|].Content() == x.conn.outgoing.reliable[id].Content())
  }

  /** The repair of `id` leaves both sides free; the packet is stored, and the acknowledgement takes it into account. */
  ghost predicate Afterwards(s0: System, s1: System, side: Side, id: Id) {
    var x, y, x', y' := From(s0, side), To(s0, side), From(s1, side), To(s1, side);
    && Ready(x') && Ready(y')
    && x'.conn.outgoing.reliable == x.conn.outgoing.reliable - Acknowledged(y.conn.ackId, y.conn.incoming.reliable)
    && y'.conn.ackId == UpdatedAck(y.conn.ackId, id)
    && y'.conn.incoming.reliable.Keys == y.conn.incoming.reliable.Keys + {id}
  }

  lemma Repairs(s: System, side: Side, id: Id) returns (more: seq<Action>)
    requires AllIdsValid(s) && Ready(From(s, side)) && Ready(To(s, side)) && Missing(From(s, side), To(s, side), id)
    ensures Repaired(s, Run(s, more), side, id) && Afterwards(s, Run(s, more), side, id)
  {
    var x, y := From(s, side), To(s, side);
    KeptIsReliable(s, [], s, side, id);
    var one, k := GapIsReported(s, [], s, side, id);
    assert [] + one == one;
    var two, p := CopyArrives(s, one, Run(s, one), side, k);
    more := one + two;
    var kept := x.conn.outgoing.reliable[id];
    assert p.id == p.Content().id == id && p.header == p.Content().header == kept.header;
    StoredAndReleased(y.conn.incoming, y.conn.ackId, p, To(Run(s, more), side).conn.incoming);
  }

  /** The id is reported after the repair of `k`, which the peer that has received nothing reports on now. */
  ghost predicate ReportedAfter(kept: map<Id, Packet>, k: Id, id: Id) {
    k in kept && k in Window(INVALID_ID) && id in Window(k)
  }

  lemma FirstAckIsTaken(k: Id)
    requires k in Window(INVALID_ID)
    ensures k != INVALID_ID && UpdatedAck(INVALID_ID, k) == k && k !in Window(k)
  {
    assert Window(INVALID_ID) == [65535, 65534, 65533, 65532];
    assert forall j :: 0 <= j < ACK_COUNT ==> Window(k)[j] == WindowId(k, j) != k;
  }

  /** After the repair of `k` the packet is one that the peer reports on. */
  lemma ReportedNow(s: System, s1: System, side: Side, k: Id, id: Id)
    requires AllIdsValid(s) && To(s, side).conn.ackId == INVALID_ID && Afterwards(s, s1, side, k)
    requires var kept := From(s, side).conn.outgoing.reliable; id in kept && ReportedAfter(kept, k, id)
    ensures Missing(From(s1, side), To(s1, side), id)
    ensures From(s1, side).conn.outgoing.reliable[id] == From(s, side).conn.outgoing.reliable[id]
  {
    FirstAckIsTaken(k);
    assert KeptRightly(From(s, side).conn.outgoing.reliable[id], id);
  }

  /** A packet can become reported because another one is repaired first. */
  lemma RepairsInTwo(s: System, side: Side, k: Id, id: Id) returns (more: seq<Action>)
    requires AllIdsValid(s) && Ready(From(s, side)) && Ready(To(s, side)) && To(s, side).conn.ackId == INVALID_ID
    requires var kept := From(s, side).conn.outgoing.reliable; id in kept && ReportedAfter(kept, k, id)
    ensures var s2, x := Run(s, more), From(s, side);
            && From(s2, side).scheduled == x.scheduled && id in To(s2, side).conn.incoming.reliable
            && To(s2, side).conn.incoming.reliable[id].Content() == x.conn.outgoing.reliable[id].Content()
  {
    var one := Repairs(s, side, k);
    var s1 := Run(s, one);
    ReportedNow(s, s1, side, k, id);
    IdsFrom(s, one);
    var two := Repairs(s1, side, id);
    RunConcat(s, one, two);
    more := one + two;
  }

  /**
   From every reachable state in which both sides are free to act, even if the network then drops everything that
   is under way, a packet that the peer's acknowledgement reports on can be repaired: there is a continuation,
   without any further reliable packet on either side, after which the peer has the packet as it was scheduled;
   and if it is the one awaited next, the application gets it at once.
   */
  lemma LostPacketIsRepaired(
    s: System, leftStart: Id, rightStart: Id, actions: seq<Action>, s0: System, side: Side, id: Id)
    returns (more: seq<Action>)
    requires Init(s, leftStart, rightStart) && s0 == AllLost(Run(s, actions))
    requires Ready(From(s0, side)) && Ready(To(s0, side)) && Missing(From(s0, side), To(s0, side), id)
    ensures Repaired(s0, Run(s0, more), side, id)
  {
    ReachableIds(s, leftStart, rightStart, actions);
    more := Repairs(s0, side, id);
  }
}
