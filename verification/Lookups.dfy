/**
 Acknowledgements are complete under interleaving: whatever other threads do between the load of the acknowledged id
 and the last lookup, the header that departs carries the id that was loaded and the bit of every id of its window
 that had been received by then.
 */
module Lookups {
  import opened Ids
  import opened Packets
  import opened Connections
  import opened AckWindow
  import opened Endpoints
  import opened AckSoundness
  import opened Network
  import opened Theorems

  /** `p` is the packet `q` with the acknowledged id and, for what was in `received`, the first `n` bits filled in. */
  ghost predicate Filled(q: Packet, ackId: Id, received: set<Id>, p: Packet, n: nat) {
    && p.Content() == q.Content() && p.ackId == ackId
    && (forall j :: 0 <= j < n && j < ACK_COUNT && WindowId(ackId, j) in received ==> p.ackBitset[j])
    && (forall j :: n <= j < 32 ==> !p.ackBitset[j])
  }

  predicate Looking(thread: Thread) {
    thread.LookWait? || thread.LookLocked?
  }

  ghost predicate Filling(q: Packet, ackId: Id, received: set<Id>, thread: Thread) {
    Looking(thread) && Filled(q, ackId, received, thread.packet, thread.bit)
  }

  lemma FilledByLookup(q: Packet, ackId: Id, received: set<Id>, p: Packet, i: Bit, now: map<Id, Packet>)
    requires Filled(q, ackId, received, p, i) && received <= now.Keys
    ensures Filled(q, ackId, received, Marked(p, i, now), i + 1)
  {
  }

  /** The next step of the looking thread itself. */
  lemma FillingStep(q: Packet, ackId: Id, received: set<Id>, c: Conn, thread: Thread)
    requires Filling(q, ackId, received, thread) && received <= c.incoming.reliable.Keys
    ensures var next, departs := NextThread(c, thread), DepartsNow(c.incoming, thread);
            || (Filling(q, ackId, received, next) && departs == [])
            || (next.Idle? && |departs| == 1 && Filled(q, ackId, received, departs[0], ACK_COUNT))
  {
    if thread.LookLocked? {
      FilledByLookup(q, ackId, received, thread.packet, thread.bit, c.incoming.reliable);
    }
  }

  /** The call goes on: at no time in `more` has thread `t` left the lookups. */
  ghost predicate GoesOn(s0: System, more: seq<Action>, side: Side, t: nat) {
    && t < |From(Run(s0, more), side).threads| && Looking(From(Run(s0, more), side).threads[t])
    && (more == [] || GoesOn(s0, more[..|more| - 1], side, t))
  }

  lemma ReceivedGrowsAfter(e: Endpoint, peer: Endpoint, a: Action)
    ensures e.conn.incoming.reliable.Keys <= EndpointAfter(e, peer, a).conn.incoming.reliable.Keys
  {
  }

  /** Other threads do not touch what this one has in hand. */
  lemma FillingAfter(
    q: Packet, ackId: Id, received: set<Id>, e: Endpoint, peer: Endpoint, a: Action, t: nat)
    requires t < |e.threads| && Filling(q, ackId, received, e.threads[t]) && received <= e.conn.incoming.reliable.Keys
    requires var e' := EndpointAfter(e, peer, a); t < |e'.threads| && Looking(e'.threads[t])
    ensures Filling(q, ackId, received, EndpointAfter(e, peer, a).threads[t])
  {
    if a.Step? && a.thread == t && Enabled(e, t) {
      FillingStep(q, ackId, received, e.conn, e.threads[t]);
    }
  }

  lemma {:induction false} FillingLasts(
    q: Packet, ackId: Id, received: set<Id>, s0: System, more: seq<Action>, side: Side, t: nat)
    requires t < |From(s0, side).threads| && Filling(q, ackId, received, From(s0, side).threads[t])
    requires received <= From(s0, side).conn.incoming.reliable.Keys && GoesOn(s0, more, side, t)
    ensures Filling(q, ackId, received, From(Run(s0, more), side).threads[t])
    ensures received <= From(Run(s0, more), side).conn.incoming.reliable.Keys
  {
    if more != [] {
      var front, a := more[..|more| - 1], more[|more| - 1];
      var before := Run(s0, front);
      FillingLasts(q, ackId, received, s0, front, side, t);
      if a.side == side {
        ReceivedGrowsAfter(From(before, side), To(before, side), a);
        FillingAfter(q, ackId, received, From(before, side), To(before, side), a, t);
      }
    }
  }

  /** Thread `t` has just loaded the acknowledged id. */
  lemma LoadStarts(s0: System, side: Side, t: nat, q: Packet)
    requires t < |From(s0, side).threads| && From(s0, side).threads[t] == LoadAck(q)
    ensures var e, e' := From(s0, side), From(Apply(s0, Step(side, t)), side);
            && t < |e'.threads| && e'.conn == e.conn && e'.departed == e.departed
            && Filling(q, e.conn.ackId, e.conn.incoming.reliable.Keys, e'.threads[t])
  {
  }

  /** The last lookup sends the packet. */
  lemma LookupEnds(s1: System, side: Side, t: nat, q: Packet, ackId: Id, received: set<Id>)
    requires t < |From(s1, side).threads| && Enabled(From(s1, side), t)
    requires Filling(q, ackId, received, From(s1, side).threads[t])
    requires received <= From(s1, side).conn.incoming.reliable.Keys
    requires From(Apply(s1, Step(side, t)), side).threads[t].Idle?
    ensures var e, e' := From(s1, side), From(Apply(s1, Step(side, t)), side);
            && |e'.departed| == |e.departed| + 1 && e.departed <= e'.departed
            && Filled(q, ackId, received, e'.departed[|e.departed|], ACK_COUNT)
  {
    var e := From(s1, side);
    FillingStep(q, ackId, received, e.conn, e.threads[t]);
  }

  /**
   Between `e` and `e'` exactly one packet has departed: the content of `q`, acknowledging `loaded.ackId`, with a bit
   for every id of the window that `loaded` had received, and only for ids that `e'` has received.
   */
  ghost predicate SendsExactly(q: Packet, loaded: Conn, e: Endpoint, e': Endpoint) {
    && |e'.departed| == |e.departed| + 1 && e.departed <= e'.departed
    && var p := e'.departed[|e.departed|];
       && p.Content() == q.Content() && p.ackId == loaded.ackId
       && (forall j :: 0 <= j < ACK_COUNT && WindowId(p.ackId, j) in loaded.incoming.reliable ==> p.ackBitset[j])
       && (forall j :: 0 <= j < ACK_COUNT && p.ackBitset[j] ==> WindowId(p.ackId, j) in e'.conn.incoming.reliable)
       && (forall j :: ACK_COUNT <= j < 32 ==> !p.ackBitset[j])
  }

  lemma FilledIsExact(q: Packet, loaded: Conn, e: Endpoint, e': Endpoint)
    requires |e'.departed| == |e.departed| + 1 && e.departed <= e'.departed
    requires Filled(q, loaded.ackId, loaded.incoming.reliable.Keys, e'.departed[|e.departed|], ACK_COUNT)
    requires AckSound(e'.departed[|e.departed|], e'.conn.incoming.reliable)
    ensures SendsExactly(q, loaded, e, e')
  {
  }

  /**
   Acknowledgements are exact although they are put together without a lock held throughout. Let a thread be about to
   load the acknowledged id, let it do so, let anything happen on both sides while it is looking, and let its last
   lookup come. Then one packet departs: the one that was popped, acknowledging the id that was loaded; a bit is set
   for every id of the window received before the load, and only for ids received by the end.
   */
  lemma DepartedAcksComplete(
    s: System, leftStart: Id, rightStart: Id, actions: seq<Action>, loaded: seq<Action>, more: seq<Action>,
    ended: seq<Action>, side: Side, t: nat, q: Packet)
    requires Init(s, leftStart, rightStart)
    requires t < |From(Run(s, actions), side).threads| && From(Run(s, actions), side).threads[t] == LoadAck(q)
    requires loaded == actions + [Step(side, t)] && GoesOn(Run(s, loaded), more, side, t)
    requires ended == loaded + more + [Step(side, t)] && Enabled(From(Run(s, loaded + more), side), t)
    requires t < |From(Run(s, ended), side).threads| && From(Run(s, ended), side).threads[t].Idle?
    ensures SendsExactly(q, From(Run(s, actions), side).conn, From(Run(s, loaded + more), side),
                         From(Run(s, ended), side))
  {
    var s0, s1, s2 := Run(s, actions), Run(s, loaded), Run(s, loaded + more);
    var c := From(s0, side).conn;
    RunAppend(s, actions, Step(side, t));
    RunConcat(s, loaded, more);
    RunAppend(s, loaded + more, Step(side, t));
    LoadStarts(s0, side, t, q);
    FillingLasts(q, c.ackId, c.incoming.reliable.Keys, s1, more, side, t);
    LookupEnds(s2, side, t, q, c.ackId, c.incoming.reliable.Keys);
    DepartedAcksSound(s, leftStart, rightStart, ended, side, |From(s2, side).departed|);
    FilledIsExact(q, c, From(s2, side), From(Run(s, ended), side));
  }
}
