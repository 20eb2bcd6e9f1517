/**
 Delivery is maximal. While at most 32767 reliable packets are in play, whatever order they arrive in, the
 acknowledged id is the furthest received, and outside the critical section of `Received` everything that can be
 delivered in order has been.
 */
module Maximality {
  import opened Ids
  import opened Packets
  import opened Connections
  import opened Endpoints
  import opened Invariants
  import opened AckSoundness

  /** No position beyond `furthest` has been received. */
  ghost predicate NoneBeyond(start: Id, received: map<Id, Packet>, furthest: Id) {
    forall id :: id in received ==>
      id != INVALID_ID && furthest != INVALID_ID && PosOf(start, id) <= PosOf(start, furthest)
  }

  /** A packet about to be stored has already been taken into account by the acknowledged id. */
  ghost predicate AnnouncedTracked(start: Id, ackId: Id, threads: seq<Thread>) {
    forall t :: 0 <= t < |threads| && threads[t].Store? ==>
      threads[t].packet.id != INVALID_ID && ackId != INVALID_ID &&
      PosOf(start, threads[t].packet.id) <= PosOf(start, ackId)
  }

  ghost predicate SomeDrain(threads: seq<Thread>) {
    exists t :: 0 <= t < |threads| && threads[t].Drain?
  }

  /** The first `k` positions have been received, and position k + 1 has not. */
  ghost predicate LongestPrefix(start: Id, received: map<Id, Packet>, k: nat) {
    (forall u :: 1 <= u <= k ==> IdAt(start, u) in received) && IdAt(start, k + 1) !in received
  }

  /** Of `count` packets scheduled, `k` have been delivered. */
  ghost predicate MaxParts(start: Id, count: nat, received: map<Id, Packet>, ackId: Id, threads: seq<Thread>, k: nat) {
    && (ackId != INVALID_ID ==> PosOf(start, ackId) <= count)
    && NoneBeyond(start, received, ackId)
    && AnnouncedTracked(start, ackId, threads)
    && (forall u :: 1 <= u <= k ==> IdAt(start, u) in received)
    && (SomeDrain(threads) || IdAt(start, k + 1) !in received)
  }

  ghost predicate MaxSide(start: Id, sent: seq<Packet>, e: Endpoint) {
    MaxParts(start, |sent|, e.conn.incoming.reliable, e.conn.ackId, e.threads, |Reliables(e.Enqueued())|)
  }

  /** The update never moves backwards, and never stays behind the new packet. */
  lemma AckAdvances(start: Id, ackId: Id, newId: Id)
    requires newId != INVALID_ID && PosOf(start, newId) <= HALF_ID
    requires ackId != INVALID_ID ==> PosOf(start, ackId) <= HALF_ID
    ensures var updated := UpdatedAck(ackId, newId);
            && updated != INVALID_ID && (updated == ackId || updated == newId)
            && PosOf(start, newId) <= PosOf(start, updated)
            && (ackId != INVALID_ID ==> PosOf(start, ackId) <= PosOf(start, updated))
  {
    if ackId != INVALID_ID {
      var m, u := PosOf(start, ackId), PosOf(start, newId);
      IdAtPosOf(start, ackId);
      IdAtPosOf(start, newId);
      UpdateTracksMaxIff(start, m, u);
      PosOfIdAt(start, Max(m, u));
    }
  }

  lemma TrackStep(start: Id, sent: seq<Packet>, e: Endpoint, t: nat)
    requires MaxSide(start, sent, e) && Enabled(e, t) && |sent| <= HALF_ID
    requires e.threads[t].TrackAck? && ReceivingGenuine(start, sent, e.threads[t])
    ensures MaxSide(start, sent, Continue(e, t))
  {
    var e' := Continue(e, t);
    AckAdvances(start, e.conn.ackId, e.threads[t].packet.id);
    assert e'.Enqueued() == e.Enqueued();
    assert SomeDrain(e.threads) ==> SomeDrain(e'.threads) by {
      if w :| 0 <= w < |e.threads| && e.threads[w].Drain? {
        assert e'.threads[w].Drain?;
      }
    }
  }

  lemma StoreStep(start: Id, sent: seq<Packet>, e: Endpoint, t: nat)
    requires MaxSide(start, sent, e) && Enabled(e, t) && e.threads[t].Store?
    ensures MaxSide(start, sent, Continue(e, t))
  {
    var e' := Continue(e, t);
    assert e'.threads[t].Drain?;
    assert e'.Enqueued() == e.Enqueued();
  }

  /** Nothing beyond the acknowledged position has been received. */
  lemma NoneAfter(start: Id, received: map<Id, Packet>, latest: Id, n: nat)
    requires latest != INVALID_ID && PosOf(start, latest) < LAP && n < LAP
    requires NoneBeyond(start, received, latest) && IdAt(start, n) == latest
    ensures IdAt(start, n + 1) !in received
  {
    PosOfIdAt(start, n + 1);
    if n > 0 {
      PosOfIdAt(start, n);
    }
  }

  /** The loop stops at the first position missing: reaching the acknowledged id, it has reached the furthest. */
  lemma DrainReachesGap(start: Id, received: map<Id, Packet>, k: nat, latest: Id, run: seq<Packet>)
    requires latest != INVALID_ID && PosOf(start, latest) < LAP && k + |run| < LAP
    requires NoneBeyond(start, received, latest)
    requires run == Released(received, IdAt(start, k), latest)
    requires forall u :: 1 <= u <= k ==> IdAt(start, u) in received
    ensures LongestPrefix(start, received, k + |run|)
  {
    ReleasedPositions(received, start, k, latest);
    var n := k + |run|;
    if IdAt(start, n) == latest {
      NoneAfter(start, received, latest, n);
    }
  }

  /** How the delivered reliable packets grow. */
  lemma DeliveredGrows(start: Id, sent: seq<Packet>, e: Endpoint, t: nat, run: seq<Packet>)
    requires RecvSide(start, sent, e) && Enabled(e, t) && |sent| < LAP
    requires run == if e.threads[t].Drain? then EnqueuesNow(e.conn.incoming, e.conn.ackId, e.threads[t]) else []
    ensures Reliables(Continue(e, t).Enqueued()) == Reliables(e.Enqueued()) + run
    ensures |Reliables(e.Enqueued()) + run| <= |sent|
  {
    EnqueuedStep(e, t);
    ReliablesConcat(e.Enqueued(), EnqueuesNow(e.conn.incoming, e.conn.ackId, e.threads[t]));
    if e.threads[t].Drain? {
      var inc := e.conn.incoming;
      DrainContinuesPrefix(start, sent, inc, Reliables(e.Enqueued()), e.conn.ackId, run,
                           LastReleased(inc.reliable, inc.sequence, e.conn.ackId));
    } else if e.threads[t].PushUnreliable? {
      NoneReliable(e.threads[t].packet);
    }
  }

  lemma ThreadReturns(start: Id, ackId: Id, threads: seq<Thread>, t: nat)
    requires AnnouncedTracked(start, ackId, threads) && t < |threads|
    ensures AnnouncedTracked(start, ackId, threads[t := Idle])
  {
  }

  /** The loop, on the parts. */
  lemma DrainParts(
    start: Id, count: nat, received: map<Id, Packet>, ackId: Id, threads: seq<Thread>, k: nat, t: nat, run: seq<Packet>)
    requires MaxParts(start, count, received, ackId, threads, k) && t < |threads| && ackId != INVALID_ID
    requires run == Released(received, IdAt(start, k), ackId) && k + |run| <= count <= HALF_ID
    ensures MaxParts(start, count, received, ackId, threads[t := Idle], k + |run|)
  {
    DrainReachesGap(start, received, k, ackId, run);
    ThreadReturns(start, ackId, threads, t);
  }

  /** What the step of the loop does to the parts. */
  lemma DrainEffect(start: Id, sent: seq<Packet>, e: Endpoint, t: nat, run: seq<Packet>)
    requires RecvSide(start, sent, e) && Enabled(e, t) && e.threads[t].Drain? && |sent| < LAP
    requires run == Released(e.conn.incoming.reliable, e.conn.incoming.sequence, e.conn.ackId)
    ensures var e', k := Continue(e, t), |Reliables(e.Enqueued())|;
            && e'.threads == e.threads[t := Idle] && e'.conn.ackId == e.conn.ackId
            && e'.conn.incoming.reliable == e.conn.incoming.reliable
            && e.conn.incoming.sequence == IdAt(start, k)
            && |Reliables(e'.Enqueued())| == k + |run| <= |sent|
  {
    DeliveredGrows(start, sent, e, t, run);
  }

  lemma FromParts(
    start: Id, sent: seq<Packet>, e: Endpoint, received: map<Id, Packet>, ackId: Id, threads: seq<Thread>, k: nat)
    requires MaxParts(start, |sent|, received, ackId, threads, k)
    requires e.conn.incoming.reliable == received && e.conn.ackId == ackId && e.threads == threads
    requires |Reliables(e.Enqueued())| == k
    ensures MaxSide(start, sent, e)
  {
  }

  lemma DrainStep(start: Id, sent: seq<Packet>, e: Endpoint, t: nat)
    requires MaxSide(start, sent, e) && RecvSide(start, sent, e) && Enabled(e, t) && e.threads[t].Drain?
    requires |sent| <= HALF_ID
    ensures MaxSide(start, sent, Continue(e, t))
  {
    var received, ackId, k := e.conn.incoming.reliable, e.conn.ackId, |Reliables(e.Enqueued())|;
    var run := Released(received, e.conn.incoming.sequence, ackId);
    DrainEffect(start, sent, e, t, run);
    DrainParts(start, |sent|, received, ackId, e.threads, k, t, run);
    FromParts(start, sent, Continue(e, t), received, ackId, e.threads[t := Idle], k + |run|);
  }

  lemma OtherStep(start: Id, sent: seq<Packet>, e: Endpoint, t: nat)
    requires MaxSide(start, sent, e) && RecvSide(start, sent, e) && Enabled(e, t) && |sent| <= HALF_ID
    requires !e.threads[t].TrackAck? && !e.threads[t].Store? && !e.threads[t].Drain?
    ensures MaxSide(start, sent, Continue(e, t))
  {
    DeliveredGrows(start, sent, e, t, []);
    OtherThreads(start, e.conn, e.threads, t);
  }

  lemma OtherThreads(start: Id, c: Conn, threads: seq<Thread>, t: nat)
    requires t < |threads| && !threads[t].TrackAck? && !threads[t].Drain?
    requires AnnouncedTracked(start, c.ackId, threads)
    ensures AnnouncedTracked(start, c.ackId, threads[t := NextThread(c, threads[t])])
    ensures SomeDrain(threads) ==> SomeDrain(threads[t := NextThread(c, threads[t])])
  {
    if w :| 0 <= w < |threads| && threads[w].Drain? {
      assert threads[t := NextThread(c, threads[t])][w].Drain?;
    }
  }

  lemma MaxSideStep(start: Id, sent: seq<Packet>, e: Endpoint, t: nat)
    requires MaxSide(start, sent, e) && RecvSide(start, sent, e) && Enabled(e, t) && |sent| <= HALF_ID
    ensures MaxSide(start, sent, Continue(e, t))
  {
    match e.threads[t]
    case TrackAck(_) => TrackStep(start, sent, e, t);
    case Store(_) => StoreStep(start, sent, e, t);
    case Drain => DrainStep(start, sent, e, t);
    case _ => OtherStep(start, sent, e, t);
  }

  /** What holds whenever no `Received` is inside its critical section. */
  lemma MaximalWhenQuiet(start: Id, sent: seq<Packet>, e: Endpoint)
    requires MaxSide(start, sent, e) && RecvSide(start, sent, e) && AckSide(e) && LocksAgree(e)
    requires |sent| <= HALF_ID && e.inLock.Shared?
    ensures LongestPrefix(start, e.conn.incoming.reliable, |Reliables(e.Enqueued())|)
    ensures e.conn.ackId == INVALID_ID <==> e.conn.incoming.reliable == map[]
    ensures e.conn.ackId != INVALID_ID ==> e.conn.ackId in e.conn.incoming.reliable
    ensures NoneBeyond(start, e.conn.incoming.reliable, e.conn.ackId)
    ensures (forall u :: 1 <= u <= |sent| ==> IdAt(start, u) in e.conn.incoming.reliable)
            ==> |Reliables(e.Enqueued())| == |sent|
  {
    NamedIsReceived(e, e.conn.ackId);
    assert e.conn.incoming.reliable == map[] || exists id :: id in e.conn.incoming.reliable;
  }
}
