/** The losses that retransmission does not make good do occur: runs that end in them. */
module Losses {
  import opened Ids
  import opened Packets
  import opened Connections
  import opened Endpoints
  import opened AckWindow
  import opened AckSoundness
  import opened Network
  import opened Theorems
  import opened Recovery
  import opened Stalls
  import opened Bursts
  import L = Laps

  lemma ScheduledFromStream(start: Id, base: Packet, stream: seq<Packet>, scheduled: seq<Packet>, n: nat, i: nat)
    requires LapOf(start, base, stream) && i < n <= LAP && scheduled == stream[..n]
    ensures |scheduled| == n && scheduled[i].id == IdAt(start, i + 1)
  {
    CopiesAt(start, base, LAP, i);
  }

  /** Of the first `n` packets of the stream all have departed, and the first `m` have arrived; the rest is lost. */
  ghost predicate BurstLost(start: Id, s0: System, n: nat, m: nat) {
    && Silent(s0.left) && Quiet(s0.right) && |s0.left.scheduled| == n
    && (forall i :: 0 <= i < n ==> s0.left.scheduled[i].id == IdAt(start, i + 1))
    && s0.right.conn.ackId == (if m == 0 then INVALID_ID else IdAt(start, m))
    && (forall id :: id in s0.right.conn.incoming.reliable <==> exists u :: 1 <= u <= m && id == IdAt(start, u))
  }

  lemma IsBurstLost(start: Id, base: Packet, stream: seq<Packet>, reached: System, n: nat, m: nat)
    requires LapOf(start, base, stream) && m <= 1 && m <= n <= LAP && Quiet(reached.left) && Quiet(reached.right)
    requires HasSent(start, stream, reached.left, n)
    requires reached.right.conn.ackId == if m == 0 then INVALID_ID else IdAt(start, m)
    requires reached.right.conn.incoming.reliable.Keys == if m == 0 then {} else {IdAt(start, m)}
    ensures BurstLost(start, AllLost(reached), n, m)
  {
    forall i | 0 <= i < n
      ensures reached.left.scheduled[i].id == IdAt(start, i + 1)
    {
      ScheduledFromStream(start, base, stream, reached.left.scheduled, n, i);
    }
  }

  /** A first burst departs, and none of it arrives. */
  lemma LoseFirstBurst(s: System, leftStart: Id, rightStart: Id, payload: Payload, n: nat)
    returns (actions: seq<Action>)
    requires Init(s, leftStart, rightStart) && |s.left.threads| > 0 && |s.right.threads| > 0 && n <= LAP
    ensures BurstLost(leftStart, AllLost(Run(s, actions)), n, 0)
  {
    var base, stream := LapOfData(leftStart, payload);
    actions := BurstDeparts(s, [], s, leftStart, base, stream, 0, n);
    IsBurstLost(leftStart, base, stream, Run(s, actions), n, 0);
  }

  /**
   A first burst of any size that stays clear of the last four ids of the cycle: all of it departs, none of it
   arrives, and no run without further reliable packets brings any of it to the peer.
   */
  lemma FirstBurstCanBeLost(s: System, leftStart: Id, rightStart: Id, payload: Payload, n: nat)
    returns (actions: seq<Action>, s0: System)
    requires Init(s, leftStart, rightStart) && |s.left.threads| > 0 && |s.right.threads| > 0
    requires leftStart + n < 65532
    ensures s0 == AllLost(Run(s, actions)) && BurstLost(leftStart, s0, n, 0)
    ensures forall i :: 0 <= i < n ==> s0.left.scheduled[i].id in s0.left.conn.outgoing.reliable
    ensures forall i, more :: 0 <= i < n ==> !Brings(s0, more, Left, s0.left.scheduled[i].id)
  {
    actions := LoseFirstBurst(s, leftStart, rightStart, payload, n);
    s0 := AllLost(Run(s, actions));
    forall i | 0 <= i < n
      ensures s0.left.scheduled[i].id in s0.left.conn.outgoing.reliable
      ensures forall more :: !Brings(s0, more, Left, s0.left.scheduled[i].id)
    {
      FirstBurstStaysLost(s, leftStart, rightStart, actions, s0, Left, i);
    }
  }

  lemma EndOfCycle()
    ensures IdAt(65530, 1) == 65531 && IdAt(65530, 5) == 65535
    ensures 65531 !in Window(INVALID_ID) && 65535 in Window(INVALID_ID) && 65531 in Window(65535)
  {
    assert Window(INVALID_ID) == [65535, 65534, 65533, 65532];
    assert Window(65535) == [65534, 65533, 65532, 65531];
  }

  /**
   At the end of the cycle it is otherwise: of five packets with the ids 65531 to 65535, all lost, the first can
   still get through, although the acknowledged id 0 does not report on it: 65535 gets through before it.
   */
  lemma EndOfCycleIsRepaired(s: System, leftStart: Id, rightStart: Id, payload: Payload)
    returns (actions: seq<Action>, s0: System)
    requires Init(s, leftStart, rightStart) && |s.left.threads| > 0 && |s.right.threads| > 0 && leftStart == 65530
    ensures s0 == AllLost(Run(s, actions)) && BurstLost(leftStart, s0, 5, 0)
    ensures 65531 !in Window(s0.right.conn.ackId) && exists more :: Brings(s0, more, Left, 65531)
  {
    actions := LoseFirstBurst(s, leftStart, rightStart, payload, 5);
    s0 := AllLost(Run(s, actions));
    EndOfCycle();
    LostIsKept(s, leftStart, rightStart, actions, s0, 0);
    LostIsKept(s, leftStart, rightStart, actions, s0, 4);
    assert ReportedAfter(s0.left.conn.outgoing.reliable, 65535, 65531);
    RepairableIff(s, leftStart, rightStart, actions, s0, Left, 65531);
  }

  lemma LostIsKept(s: System, leftStart: Id, rightStart: Id, actions: seq<Action>, s0: System, i: nat)
    requires Init(s, leftStart, rightStart) && s0 == AllLost(Run(s, actions))
    requires i < |s0.left.scheduled| && s0.left.scheduled[i].id !in s0.right.conn.incoming.reliable
    ensures s0.left.scheduled[i].id in s0.left.conn.outgoing.reliable
  {
    NothingForgotten(s, leftStart, rightStart, actions, Left);
  }

  /** The first packet of a burst has arrived, and nothing else has. */
  ghost predicate OnlyFirstArrived(start: Id, y: Endpoint) {
    && Quiet(y) && y.conn.ackId == IdAt(start, 1)
    && y.conn.incoming.reliable.Keys == {IdAt(start, 1)}
  }

  lemma FirstArrives(s: System, actions: seq<Action>, s0: System, start: Id, stream: seq<Packet>, peerStart: Id)
    returns (longer: seq<Action>)
    requires s0 == Run(s, actions) && HasSent(start, stream, s0.left, 1)
    requires InitEndpoint(s0.right, peerStart, start) && |s0.right.threads| > 0
    ensures var s1 := Run(s, longer); s1.left == s0.left && OnlyFirstArrived(start, s1.right)
  {
    assert HasDeparted(start, stream, s0.left, 1);
    var p;
    longer, p := PositionArrives(s, actions, s0, start, stream, 1);
  }

  /** The first packet of a burst arrives, and the others do not. */
  lemma LoseTail(s: System, leftStart: Id, rightStart: Id, payload: Payload, n: nat) returns (actions: seq<Action>)
    requires Init(s, leftStart, rightStart) && |s.left.threads| > 0 && |s.right.threads| > 0 && 1 <= n <= LAP
    ensures BurstLost(leftStart, AllLost(Run(s, actions)), n, 1)
  {
    var base, stream := LapOfData(leftStart, payload);
    var first := BurstDeparts(s, [], s, leftStart, base, stream, 0, 1);
    var arrived := FirstArrives(s, first, Run(s, first), leftStart, stream, rightStart);
    actions := BurstDeparts(s, arrived, Run(s, arrived), leftStart, base, stream, 1, n);
    IsBurstLost(leftStart, base, stream, Run(s, actions), n, 1);
  }

  lemma TailPacketStaysLost(
    s: System, leftStart: Id, rightStart: Id, actions: seq<Action>, s0: System, n: nat, j: nat)
    requires Init(s, leftStart, rightStart) && s0 == AllLost(Run(s, actions)) && BurstLost(leftStart, s0, n, 1)
    requires 1 <= j < n <= LAP - 4
    ensures s0.left.scheduled[j].id in s0.left.conn.outgoing.reliable
    ensures forall more :: !Brings(s0, more, Left, s0.left.scheduled[j].id)
  {
    IdsApart(leftStart, 1, j + 1);
    TailStaysLost(s, leftStart, rightStart, actions, s0, Left, 0, j);
  }

  /**
   The end of a burst of any size up to a lap: the first packet arrives and is acknowledged, the others depart and
   are lost, and no run without further reliable packets brings any of them to the peer.
   */
  lemma TailCanBeLost(s: System, leftStart: Id, rightStart: Id, payload: Payload, n: nat)
    returns (actions: seq<Action>, s0: System)
    requires Init(s, leftStart, rightStart) && |s.left.threads| > 0 && |s.right.threads| > 0
    requires 1 <= n <= LAP - 4
    ensures s0 == AllLost(Run(s, actions)) && BurstLost(leftStart, s0, n, 1)
    ensures forall j :: 1 <= j < n ==> s0.left.scheduled[j].id in s0.left.conn.outgoing.reliable
    ensures forall j, more :: 1 <= j < n ==> !Brings(s0, more, Left, s0.left.scheduled[j].id)
  {
    actions := LoseTail(s, leftStart, rightStart, payload, n);
    s0 := AllLost(Run(s, actions));
    forall j | 1 <= j < n
      ensures s0.left.scheduled[j].id in s0.left.conn.outgoing.reliable
      ensures forall more :: !Brings(s0, more, Left, s0.left.scheduled[j].id)
    {
      TailPacketStaysLost(s, leftStart, rightStart, actions, s0, n, j);
    }
  }
}
