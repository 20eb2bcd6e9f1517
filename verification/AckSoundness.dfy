/**
 Acknowledgements under thread interleaving. `Received` publishes the new acknowledged id before it stores the
 packet, and `AddAckHeader` reads the id without a lock, so a packet can briefly name an id that has not been
 stored. By the time it leaves, the first lookup has waited for that `Received` to finish.
 */
module AckSoundness {
  import opened Ids
  import opened Packets
  import opened Connections
  import opened Endpoints
  import opened Invariants

  ghost predicate BitsSound(p: Packet, received: map<Id, Packet>) {
    forall i :: 0 <= i < ACK_COUNT && p.ackBitset[i] ==> WindowId(p.ackId, i) in received
  }

  /** Everything the packet acknowledges has been received. */
  ghost predicate AckSound(p: Packet, received: map<Id, Packet>) {
    (p.ackId == INVALID_ID || p.ackId in received) && BitsSound(p, received)
  }

  /** `id` has been received, or a thread is about to store it. */
  ghost predicate Named(threads: seq<Thread>, received: map<Id, Packet>, id: Id) {
    || id == INVALID_ID
    || id in received
    || exists t :: 0 <= t < |threads| && threads[t].Store? && threads[t].packet.id == id
  }

  /** A packet between its pop and its departure. */
  ghost predicate LookingSound(threads: seq<Thread>, received: map<Id, Packet>, thread: Thread) {
    match thread
    case LookWait(p, i) =>
      if i == 0 then Named(threads, received, p.ackId) && BitsSound(p, received) else AckSound(p, received)
    case LookLocked(p, _) => AckSound(p, received)
    case _ => true
  }

  ghost predicate AckSide(e: Endpoint) {
    var received := e.conn.incoming.reliable;
    && Named(e.threads, received, e.conn.ackId)
    && (forall i :: 0 <= i < |e.departed| ==> AckSound(e.departed[i], received))
    && forall t :: 0 <= t < |e.threads| ==> LookingSound(e.threads, received, e.threads[t])
  }

  predicate ProcessesAcks(thread: Thread) {
    thread.ReceiveWait? || thread.AckWait? || thread.AckLocked?
  }

  /** The packets being processed by `Received` acknowledge only what the peer has received. */
  ghost predicate HeldAcksSound(e: Endpoint, peerReceived: map<Id, Packet>) {
    forall t :: 0 <= t < |e.threads| && ProcessesAcks(e.threads[t]) ==> AckSound(e.threads[t].packet, peerReceived)
  }

  lemma AckSoundGrows(p: Packet, received: map<Id, Packet>, received': map<Id, Packet>)
    requires received.Keys <= received'.Keys
    ensures BitsSound(p, received) ==> BitsSound(p, received')
    ensures AckSound(p, received) ==> AckSound(p, received')
  {
  }

  lemma ReceivedGrows(e: Endpoint, t: nat)
    requires Enabled(e, t)
    ensures e.conn.incoming.reliable.Keys <= Continue(e, t).conn.incoming.reliable.Keys
  {
  }

  /** A named id stays named: the thread that has announced it stores it with its next step. */
  lemma NamedStep(e: Endpoint, t: nat, id: Id)
    requires Enabled(e, t) && Named(e.threads, e.conn.incoming.reliable, id)
    ensures Named(Continue(e, t).threads, Continue(e, t).conn.incoming.reliable, id)
  {
    var e' := Continue(e, t);
    ReceivedGrows(e, t);
    if id != INVALID_ID && id !in e.conn.incoming.reliable {
      var w :| 0 <= w < |e.threads| && e.threads[w].Store? && e.threads[w].packet.id == id;
      assert w != t ==> e'.threads[w] == e.threads[w];
    }
  }

  /** While a lookup can take the lock shared, no packet is announced and not yet stored. */
  lemma NamedIsReceived(e: Endpoint, id: Id)
    requires LocksAgree(e) && e.inLock.Shared? && Named(e.threads, e.conn.incoming.reliable, id)
    ensures id == INVALID_ID || id in e.conn.incoming.reliable
  {
  }

  lemma LookingStep(
    threads: seq<Thread>, threads': seq<Thread>, received: map<Id, Packet>, received': map<Id, Packet>, thread: Thread)
    requires LookingSound(threads, received, thread)
    requires received.Keys <= received'.Keys
    requires forall id :: Named(threads, received, id) ==> Named(threads', received', id)
    ensures LookingSound(threads', received', thread)
  {
    if thread.LookWait? || thread.LookLocked? {
      AckSoundGrows(thread.packet, received, received');
    }
  }

  /** The moving thread's own packet. */
  lemma LookingNext(e: Endpoint, t: nat)
    requires LocksAgree(e) && AckSide(e) && Enabled(e, t)
    ensures LookingSound(e.threads, e.conn.incoming.reliable, NextThread(e.conn, e.threads[t]))
    ensures forall p :: p in DepartsNow(e.conn.incoming, e.threads[t]) ==> AckSound(p, e.conn.incoming.reliable)
  {
    var received := e.conn.incoming.reliable;
    match e.threads[t]
    case LookWait(p, i) =>
      assert LookingSound(e.threads, received, e.threads[t]);
      NamedIsReceived(e, p.ackId);
    case LookLocked(p, i) =>
      assert LookingSound(e.threads, received, e.threads[t]);
      assert AckSound(Marked(p, i, received), received);
    case _ =>
  }

  lemma AckIdStep(e: Endpoint, t: nat)
    requires AckSide(e) && Enabled(e, t)
    ensures Named(Continue(e, t).threads, Continue(e, t).conn.incoming.reliable, Continue(e, t).conn.ackId)
  {
    NamedStep(e, t, e.conn.ackId);
    if e.threads[t].TrackAck? {
      assert Continue(e, t).threads[t] == Store(e.threads[t].packet);
    }
  }

  lemma AckSideStep(e: Endpoint, t: nat)
    requires LocksAgree(e) && AckSide(e) && Enabled(e, t)
    ensures AckSide(Continue(e, t))
  {
    var e' := Continue(e, t);
    var received, received' := e.conn.incoming.reliable, e'.conn.incoming.reliable;
    ReceivedGrows(e, t);
    forall id | Named(e.threads, received, id)
      ensures Named(e'.threads, received', id)
    {
      NamedStep(e, t, id);
    }
    AckIdStep(e, t);
    LookingNext(e, t);
    forall i | 0 <= i < |e'.threads|
      ensures LookingSound(e'.threads, received', e'.threads[i])
    {
      LookingStep(e.threads, e'.threads, received, received', e'.threads[i]);
    }
    forall i | 0 <= i < |e'.departed|
      ensures AckSound(e'.departed[i], received')
    {
      if i >= |e.departed| {
        assert e'.departed[i] in DepartsNow(e.conn.incoming, e.threads[t]);
      }
      AckSoundGrows(e'.departed[i], received, received');
    }
  }

  lemma HeldAcksStep(e: Endpoint, t: nat, peerReceived: map<Id, Packet>)
    requires HeldAcksSound(e, peerReceived) && Enabled(e, t)
    ensures HeldAcksSound(Continue(e, t), peerReceived)
  {
  }

  // ---------- no reliable packet is forgotten ----------

  /** Each reliable packet scheduled is still kept by the sender or has been received by the peer. */
  ghost predicate Covered(sent: seq<Packet>, kept: map<Id, Packet>, peerReceived: map<Id, Packet>) {
    forall i :: 0 <= i < |sent| ==> sent[i].id in kept || sent[i].id in peerReceived
  }

  /** Only what the peer has received is dropped. */
  lemma CoveredStep(e: Endpoint, t: nat, peerReceived: map<Id, Packet>)
    requires Covered(e.scheduled, e.conn.outgoing.reliable, peerReceived)
    requires HeldAcksSound(e, peerReceived) && Enabled(e, t)
    requires forall i :: 0 <= i < |e.scheduled| ==> e.scheduled[i].id != INVALID_ID
    ensures Covered(Continue(e, t).scheduled, Continue(e, t).conn.outgoing.reliable, peerReceived)
  {
    var thread, kept, kept' := e.threads[t], e.conn.outgoing.reliable, Continue(e, t).conn.outgoing.reliable;
    if thread.AckLocked? {
      assert AckSound(thread.packet, peerReceived);
      assert forall id :: id in kept && id !in kept' ==> id == INVALID_ID || id in peerReceived;
    } else {
      assert kept.Keys <= kept'.Keys;
    }
  }
}
