/** What every run of two endpoints over the network guarantees. */
module Theorems {
  import opened Ids
  import opened Packets
  import opened Connections
  import opened Endpoints
  import opened Invariants
  import opened AckSoundness
  import opened Maximality
  import opened Network

  function StartOf(leftStart: Id, rightStart: Id, side: Side): Id {
    if side.Left? then leftStart else rightStart
  }

  lemma Invariant(s: System, leftStart: Id, rightStart: Id, actions: seq<Action>, side: Side)
    requires Init(s, leftStart, rightStart)
    ensures var s' := Run(s, actions);
            && Sound(From(s', side)) && Sound(To(s', side)) && Linked(From(s', side), To(s', side))
            && InLap(StartOf(leftStart, rightStart, side), From(s', side), To(s', side))
            && InHalfLap(StartOf(leftStart, rightStart, side), From(s', side), To(s', side))
  {
    UnconditionalAlways(s, leftStart, rightStart, actions);
    BoundedAlways(s, leftStart, rightStart, actions);
  }

  /**
   Exactly-once, in-order delivery. In every reachable state with fewer than 65535 reliable packets scheduled in
   a direction, from any pair of starting numbers, the reliable packets made ready for the application are the
   packets scheduled first: same header, id and payload, in order, no gap, no repeat.
   */
  lemma InOrderExactlyOnce(s: System, leftStart: Id, rightStart: Id, actions: seq<Action>, side: Side)
    requires Init(s, leftStart, rightStart)
    ensures var x, y := From(Run(s, actions), side), To(Run(s, actions), side);
            |x.scheduled| < LAP ==>
              && IsPrefixOf(Reliables(y.Enqueued()), x.scheduled)
              && y.conn.incoming.sequence == IdAt(StartOf(leftStart, rightStart, side), |Reliables(y.Enqueued())|)
  {
    Invariant(s, leftStart, rightStart, actions, side);
  }

  /**
   No reliable packet is forgotten: in every reachable state, with any number of packets, each scheduled id is
   still kept by the sender or has been received by the peer.
   */
  lemma NothingForgotten(s: System, leftStart: Id, rightStart: Id, actions: seq<Action>, side: Side)
    requires Init(s, leftStart, rightStart)
    ensures var x, y := From(Run(s, actions), side), To(Run(s, actions), side);
            Covered(x.scheduled, x.conn.outgoing.reliable, y.conn.incoming.reliable)
  {
    Invariant(s, leftStart, rightStart, actions, side);
  }

  /** Within a lap it is the very packet that is kept, or received up to its acknowledgement. */
  lemma NoPacketForgotten(s: System, leftStart: Id, rightStart: Id, actions: seq<Action>, side: Side, i: nat)
    requires Init(s, leftStart, rightStart)
    requires i < |From(Run(s, actions), side).scheduled| < LAP
    ensures var x, y := From(Run(s, actions), side), To(Run(s, actions), side);
            var p, kept, received := x.scheduled[i], x.conn.outgoing.reliable, y.conn.incoming.reliable;
            || (p.id in kept && kept[p.id] == p)
            || (p.id in received && received[p.id].Content() == p.Content())
  {
    Invariant(s, leftStart, rightStart, actions, side);
    PacketCovered(StartOf(leftStart, rightStart, side), From(Run(s, actions), side), To(Run(s, actions), side), i);
  }

  lemma PacketCovered(start: Id, x: Endpoint, y: Endpoint, i: nat)
    requires i < |x.scheduled| < LAP && InLap(start, x, y) && Linked(x, y)
    ensures var p, kept, received := x.scheduled[i], x.conn.outgoing.reliable, y.conn.incoming.reliable;
            || (p.id in kept && kept[p.id] == p)
            || (p.id in received && received[p.id].Content() == p.Content())
  {
    PosOfIdAt(start, i + 1);
  }

  /**
   Acknowledgements are sound although they are put together without holding a lock throughout: every packet that
   has left names, by its acknowledged id and by each bit, only ids received by the endpoint it left from.
   */
  lemma DepartedAcksSound(s: System, leftStart: Id, rightStart: Id, actions: seq<Action>, side: Side, i: nat)
    requires Init(s, leftStart, rightStart)
    requires i < |From(Run(s, actions), side).departed|
    ensures var x := From(Run(s, actions), side);
            AckSound(x.departed[i], x.conn.incoming.reliable)
  {
    Invariant(s, leftStart, rightStart, actions, side);
  }

  /**
   The assertion in `Received` never fails, and the loop that releases packets is never entered with the invalid
   id as its goal, which is what it needs to terminate.
   */
  lemma AssertionsNeverFail(s: System, leftStart: Id, rightStart: Id, actions: seq<Action>, side: Side)
    requires Init(s, leftStart, rightStart)
    ensures AssertionsHold(From(Run(s, actions), side))
  {
    Invariant(s, leftStart, rightStart, actions, side);
    ValidIdsPassAssertions(From(Run(s, actions), side));
  }

  /** No deadlock: as long as some call is unfinished on a side, some call on that side can move. */
  lemma NoDeadlock(s: System, leftStart: Id, rightStart: Id, actions: seq<Action>, side: Side, unfinished: nat)
    returns (t: nat)
    requires Init(s, leftStart, rightStart)
    requires var x := From(Run(s, actions), side); unfinished < |x.threads| && !x.threads[unfinished].Idle?
    ensures Enabled(From(Run(s, actions), side), t)
  {
    Invariant(s, leftStart, rightStart, actions, side);
    ValidIdsPassAssertions(From(Run(s, actions), side));
    t := DeadlockFree(From(Run(s, actions), side), unfinished);
  }

  /**
   Calls finish: threads that only continue the calls they are in make at most `Work` steps in all, and when none
   of them can move any more every call has returned.
   */
  lemma {:induction false} CallsFinish(e: Endpoint, ts: seq<nat>)
    requires LocksAgree(e) && IdsValid(e) && CanRun(e, ts)
    ensures |ts| <= Work(e.threads)
    ensures (forall t :: !Enabled(AfterRun(e, ts), t)) ==>
              forall t :: 0 <= t < |AfterRun(e, ts).threads| ==> AfterRun(e, ts).threads[t].Idle?
    decreases |ts|
  {
    if ts == [] {
      forall i | 0 <= i < |e.threads| && !e.threads[i].Idle?
        ensures exists t :: Enabled(e, t)
      {
        ValidIdsPassAssertions(e);
        var t := DeadlockFree(e, i);
      }
    } else {
      WorkShrinks(e, ts[0]);
      LocksStep(e, ts[0]);
      IdsValidStep(e, ts[0]);
      CallsFinish(Continue(e, ts[0]), ts[1..]);
    }
  }

  /** Every packet popped for sending or departed, first copy or retransmission, is the one scheduled. */
  lemma RetransmissionFidelity(s: System, leftStart: Id, rightStart: Id, actions: seq<Action>, side: Side)
    requires Init(s, leftStart, rightStart)
    ensures var x := From(Run(s, actions), side);
            |x.scheduled| < LAP ==>
              && AllGenuine(StartOf(leftStart, rightStart, side), x.scheduled, x.Pushed())
              && AllGenuine(StartOf(leftStart, rightStart, side), x.scheduled, x.departed)
  {
    Invariant(s, leftStart, rightStart, actions, side);
  }

  /** From `x` to the later `x'`, the erased `id` has not been kept again and no copy has been made ready. */
  ghost predicate ErasedSince(x: Endpoint, x': Endpoint, id: Id) {
    && x.scheduled <= x'.scheduled
    && id !in x'.conn.outgoing.reliable
    && x.Pushed() <= x'.Pushed()
    && NoCopyOf(x'.Pushed()[|x.Pushed()|..], id)
  }

  lemma ErasedSinceStep(start: Id, x: Endpoint, mid: Endpoint, t: nat, i: nat)
    requires i < |x.scheduled| && ErasedSince(x, mid, x.scheduled[i].id) && Enabled(mid, t)
    requires SendSide(start, mid) && |Continue(mid, t).scheduled| < LAP
    ensures ErasedSince(x, Continue(mid, t), x.scheduled[i].id)
  {
    var pushed := PushesNow(mid.conn.outgoing, mid.threads[t]);
    assert x.scheduled[i] == mid.scheduled[i];
    ErasedStep(start, mid.scheduled, mid.conn.outgoing, mid.threads[t], i);
    PushedStep(mid, t);
    assert (mid.Pushed() + pushed)[|x.Pushed()|..] == mid.Pushed()[|x.Pushed()|..] + pushed;
  }

  lemma ErasedSinceAfter(start: Id, x: Endpoint, mid: Endpoint, peer: Endpoint, a: Action, i: nat)
    requires i < |x.scheduled| && ErasedSince(x, mid, x.scheduled[i].id)
    requires |EndpointAfter(mid, peer, a).scheduled| < LAP && InLap(start, mid, peer)
    ensures ErasedSince(x, EndpointAfter(mid, peer, a), x.scheduled[i].id)
  {
    ScheduledGrows(mid, peer, a);
    match a
    case Begin(_, t, call) => assert EndpointAfter(mid, peer, a).Pushed() == mid.Pushed();
    case Step(_, t) =>
      if Enabled(mid, t) {
        ErasedSinceStep(start, x, mid, t, i);
      }
  }

  /**
   What the peer has acknowledged is not sent again: once a scheduled packet is no longer kept, no continuation of
   the run within the lap keeps it again or makes another copy of it ready.
   */
  lemma {:induction false} ErasedStaysErased(
    s: System, leftStart: Id, rightStart: Id, actions: seq<Action>, more: seq<Action>, side: Side, i: nat)
    requires Init(s, leftStart, rightStart)
    requires var x := From(Run(s, actions), side);
             i < |x.scheduled| && x.scheduled[i].id !in x.conn.outgoing.reliable
    requires |From(Run(s, actions + more), side).scheduled| < LAP
    ensures var x, x' := From(Run(s, actions), side), From(Run(s, actions + more), side);
            ErasedSince(x, x', x.scheduled[i].id)
  {
    if more == [] {
      assert actions + more == actions;
    } else {
      var front, a := more[..|more| - 1], more[|more| - 1];
      assert (actions + more)[..|actions + more| - 1] == actions + front;
      var before, mid := Run(s, actions), Run(s, actions + front);
      assert Run(s, actions + more) == Apply(mid, a);
      ScheduledGrows(From(mid, side), To(mid, side), a);
      ErasedStaysErased(s, leftStart, rightStart, actions, front, side, i);
      if a.side == side {
        Invariant(s, leftStart, rightStart, actions + front, side);
        ErasedSinceAfter(StartOf(leftStart, rightStart, side), From(before, side), From(mid, side), To(mid, side), a,
                         i);
      }
    }
  }

  /**
   The incoming queue conserves what it is given: what the application has consumed, followed by what is ready,
   contains every unreliable packet received exactly once in order of arrival, for any number of packets; and
   within a lap its reliable packets are the contiguous prefix. Neither disturbs the other's order.
   */
  lemma IncomingQueueConserved(s: System, leftStart: Id, rightStart: Id, actions: seq<Action>, side: Side)
    requires Init(s, leftStart, rightStart)
    ensures var x, y := From(Run(s, actions), side), To(Run(s, actions), side);
            && Unreliables(y.consumed + y.conn.incoming.ready) == y.arrivals
            && (|x.scheduled| < LAP ==> IsPrefixOf(Reliables(y.consumed + y.conn.incoming.ready), x.scheduled))
  {
    Invariant(s, leftStart, rightStart, actions, side);
  }

  /**
   Delivery is maximal: with at most 32767 reliable packets scheduled, whenever no `Received` is inside its
   critical section, exactly the longest contiguous prefix of what has arrived has been made ready, the
   acknowledged id is the furthest received, and once everything has arrived everything is ready.
   */
  lemma DeliveryIsMaximal(s: System, leftStart: Id, rightStart: Id, actions: seq<Action>, side: Side)
    requires Init(s, leftStart, rightStart)
    requires |From(Run(s, actions), side).scheduled| <= HALF_ID && To(Run(s, actions), side).inLock.Shared?
    ensures var x, y := From(Run(s, actions), side), To(Run(s, actions), side);
            var start, received := StartOf(leftStart, rightStart, side), y.conn.incoming.reliable;
            && LongestPrefix(start, received, |Reliables(y.Enqueued())|)
            && (y.conn.ackId == INVALID_ID <==> received == map[])
            && (y.conn.ackId != INVALID_ID ==> y.conn.ackId in received)
            && NoneBeyond(start, received, y.conn.ackId)
            && ((forall i :: 0 <= i < |x.scheduled| ==> x.scheduled[i].id in received) ==>
                  |Reliables(y.Enqueued())| == |x.scheduled|)
  {
    Invariant(s, leftStart, rightStart, actions, side);
    var x, y := From(Run(s, actions), side), To(Run(s, actions), side);
    MaximalWhenQuiet(StartOf(leftStart, rightStart, side), x.scheduled, y);
    if forall i :: 0 <= i < |x.scheduled| ==> x.scheduled[i].id in y.conn.incoming.reliable {
      forall u | 1 <= u <= |x.scheduled|
        ensures IdAt(StartOf(leftStart, rightStart, side), u) in y.conn.incoming.reliable
      {
        assert x.scheduled[u - 1].id == IdAt(StartOf(leftStart, rightStart, side), u);
      }
    }
  }

  /** What `Schedule` makes ready for each packet in turn, starting from sequence number `sequence`. */
  function AfterSchedules(out: Stream, packets: seq<Packet>): Stream {
    if packets == [] then out
    else Scheduled(AfterSchedules(out, packets[..|packets| - 1]), packets[|packets| - 1])
  }

  /** An unreliable packet as it is; a reliable one up to its id. */
  predicate SameButId(p: Packet, q: Packet) {
    q == if p.IsReliable() then p.(id := q.id) else p
  }

  /**
   The stream of ids in closed form, whatever unreliable packets are interleaved: the n-th reliable packet made
   ready carries id ((start + n - 1) mod 65535) + 1, which is never 0; and everything is made ready in the order in
   which it was scheduled, otherwise unchanged.
   */
  lemma {:induction false} IdStream(out: Stream, packets: seq<Packet>) returns (pushed: seq<Packet>)
    ensures AfterSchedules(out, packets).ready == out.ready + pushed
    ensures |pushed| == |packets| && |Reliables(pushed)| == |Reliables(packets)|
    ensures AfterSchedules(out, packets).sequence == IdAt(out.sequence, |Reliables(pushed)|)
    ensures forall i :: 0 <= i < |Reliables(pushed)| ==>
              Reliables(pushed)[i].id == (out.sequence + i) % 65535 + 1 && Reliables(pushed)[i].id != INVALID_ID
    ensures forall i :: 0 <= i < |packets| ==> SameButId(packets[i], pushed[i])
  {
    if packets == [] {
      pushed := [];
    } else {
      var front, p := packets[..|packets| - 1], packets[|packets| - 1];
      var before := IdStream(out, front);
      var mid := AfterSchedules(out, front);
      var next := if p.IsReliable() then p.(id := Succ(mid.sequence)) else p;
      pushed := before + [next];
      assert pushed[..|pushed| - 1] == before;
      SuccIdAt(out.sequence, |Reliables(before)|);
      assert next.IsReliable() == p.IsReliable();
    }
  }

  /** Any 65535 consecutive reliable packets carry distinct ids. */
  lemma IdStreamDistinct(out: Stream, packets: seq<Packet>, m: nat, n: nat) returns (pushed: seq<Packet>)
    requires m < n < |Reliables(packets)| && n - m < 65535
    ensures AfterSchedules(out, packets).ready == out.ready + pushed && |Reliables(pushed)| == |Reliables(packets)|
    ensures Reliables(pushed)[m].id != Reliables(pushed)[n].id
  {
    pushed := IdStream(out, packets);
    SameIdIffWholeLaps(out.sequence, m + 1, n + 1);
  }
}
