/**
 What every step of one endpoint keeps. `start` is the sequence number from which the sender numbers its
 reliable packets; `sent` is what it has scheduled so far, so that position u holds sent[u - 1].
 */
module Invariants {
  import opened Ids
  import opened Packets
  import opened Connections
  import opened Endpoints

  // ---------- sender: everything in flight is what was scheduled ----------

  /** A reliable packet that differs from the scheduled packet of its id in the acknowledgement at most. */
  predicate Genuine(start: Id, sent: seq<Packet>, p: Packet) {
    p.IsReliable() ==>
      && p.id != INVALID_ID
      && PosOf(start, p.id) <= |sent|
      && p.Content() == sent[PosOf(start, p.id) - 1].Content()
  }

  ghost predicate AllGenuine(start: Id, sent: seq<Packet>, ps: seq<Packet>) {
    forall i :: 0 <= i < |ps| ==> Genuine(start, sent, ps[i])
  }

  /** The n-th reliable packet scheduled carries the n-th id. */
  ghost predicate Numbered(start: Id, sent: seq<Packet>) {
    forall i :: 0 <= i < |sent| ==> sent[i].IsReliable() && sent[i].id == IdAt(start, i + 1)
  }

  /** Each packet kept for retransmission is the one scheduled under its id. */
  ghost predicate KeptGenuine(start: Id, sent: seq<Packet>, kept: map<Id, Packet>) {
    forall id :: id in kept ==>
      id != INVALID_ID && PosOf(start, id) <= |sent| && kept[id] == sent[PosOf(start, id) - 1]
  }

  predicate SendingGenuine(start: Id, sent: seq<Packet>, thread: Thread) {
    thread.LoadAck? || thread.LookWait? || thread.LookLocked? ==> Genuine(start, sent, thread.packet)
  }

  ghost predicate SendState(start: Id, sent: seq<Packet>, out: Stream) {
    && out.sequence == IdAt(start, |sent|)
    && Numbered(start, sent)
    && KeptGenuine(start, sent, out.reliable)
  }

  ghost predicate SendSide(start: Id, e: Endpoint) {
    && SendState(start, e.scheduled, e.conn.outgoing)
    && AllGenuine(start, e.scheduled, e.Pushed())
    && AllGenuine(start, e.scheduled, e.departed)
    && forall t :: 0 <= t < |e.threads| ==> SendingGenuine(start, e.scheduled, e.threads[t])
  }

  /** What a step makes ready for sending. */
  function PushesNow(out: Stream, thread: Thread): seq<Packet> {
    match thread
    case ScheduleLocked(p) => [if p.IsReliable() then p.(id := Succ(out.sequence)) else p]
    case AckLocked(p, n) =>
      if n > 0 && !p.ackBitset[n - 1] && WindowId(p.ackId, n - 1) in out.reliable
      then [out.reliable[WindowId(p.ackId, n - 1)]] else []
    case _ => []
  }

  lemma PushedStep(e: Endpoint, t: nat)
    requires Enabled(e, t)
    ensures Continue(e, t).Pushed() == e.Pushed() + PushesNow(e.conn.outgoing, e.threads[t])
  {
    var out, thread := e.conn.outgoing, e.threads[t];
    var out' := NextOutgoing(out, thread);
    if thread.PopOutLocked? && out.ready != [] {
      assert out.ready == [out.ready[0]] + out.ready[1..];
    } else {
      assert out'.ready == out.ready + PushesNow(out, thread);
    }
  }

  lemma GenuineGrows(start: Id, sent: seq<Packet>, more: seq<Packet>, p: Packet)
    requires Genuine(start, sent, p)
    ensures Genuine(start, sent + more, p)
  {
  }

  lemma AllGenuineGrows(start: Id, sent: seq<Packet>, more: seq<Packet>, ps: seq<Packet>)
    requires AllGenuine(start, sent, ps)
    ensures AllGenuine(start, sent + more, ps)
  {
    forall i | 0 <= i < |ps|
      ensures Genuine(start, sent + more, ps[i])
    {
      GenuineGrows(start, sent, more, ps[i]);
    }
  }

  /** A scheduled packet gets the id of its position, as long as the ids have not gone round. */
  lemma ScheduledIsNumbered(start: Id, sent: seq<Packet>, out: Stream, p: Packet)
    requires SendState(start, sent, out) && p.IsReliable() && |sent| + 1 < LAP
    ensures var numbered := p.(id := Succ(out.sequence));
            && numbered.id == IdAt(start, |sent| + 1)
            && Genuine(start, sent + [numbered], numbered)
            && SendState(start, sent + [numbered], Scheduled(out, p))
  {
    SuccIdAt(start, |sent|);
    PosOfIdAt(start, |sent| + 1);
  }

  lemma OutgoingStep(start: Id, sent: seq<Packet>, out: Stream, thread: Thread)
    requires SendState(start, sent, out)
    requires |sent + SchedulesNow(out, thread)| < LAP
    ensures SendState(start, sent + SchedulesNow(out, thread), NextOutgoing(out, thread))
    ensures AllGenuine(start, sent + SchedulesNow(out, thread), PushesNow(out, thread))
  {
    assert sent + [] == sent;
    if thread.ScheduleLocked? && thread.packet.IsReliable() {
      ScheduledIsNumbered(start, sent, out, thread.packet);
    } else if thread.AckLocked? {
      forall id | id in out.reliable
        ensures Genuine(start, sent, out.reliable[id])
      {
        IdAtPosOf(start, id);
      }
    }
  }

  lemma SendingThreadStep(start: Id, sent: seq<Packet>, c: Conn, thread: Thread)
    requires SendingGenuine(start, sent, thread)
    requires thread.PopOutLocked? && c.outgoing.ready != [] ==> Genuine(start, sent, c.outgoing.ready[0])
    ensures SendingGenuine(start, sent, NextThread(c, thread))
    ensures AllGenuine(start, sent, DepartsNow(c.incoming, thread))
  {
  }

  lemma SendSideStep(start: Id, e: Endpoint, t: nat)
    requires SendSide(start, e) && Enabled(e, t)
    requires |Continue(e, t).scheduled| < LAP
    ensures SendSide(start, Continue(e, t))
  {
    var thread, more := e.threads[t], SchedulesNow(e.conn.outgoing, e.threads[t]);
    OutgoingStep(start, e.scheduled, e.conn.outgoing, thread);
    PushedStep(e, t);
    AllGenuineGrows(start, e.scheduled, more, e.Pushed());
    AllGenuineGrows(start, e.scheduled, more, e.departed);
    forall i | 0 <= i < |e.threads|
      ensures SendingGenuine(start, e.scheduled + more, e.threads[i])
    {
      if e.threads[i].LoadAck? || e.threads[i].LookWait? || e.threads[i].LookLocked? {
        assert SendingGenuine(start, e.scheduled, e.threads[i]);
        GenuineGrows(start, e.scheduled, more, e.threads[i].packet);
      }
    }
    if thread.PopOutLocked? && e.conn.outgoing.ready != [] {
      assert e.Pushed()[|e.popped|] == e.conn.outgoing.ready[0];
      GenuineGrows(start, e.scheduled, more, e.conn.outgoing.ready[0]);
    }
    SendingThreadStep(start, e.scheduled + more, e.conn, thread);
  }

  // ---------- receiver: the application gets a prefix of what was scheduled ----------

  /** The reliable packets of `ps`, in order. */
  function Reliables(ps: seq<Packet>): seq<Packet> {
    if ps == [] then []
    else Reliables(ps[..|ps| - 1]) + if ps[|ps| - 1].IsReliable() then [ps[|ps| - 1]] else []
  }

  function Unreliables(ps: seq<Packet>): seq<Packet> {
    if ps == [] then []
    else Unreliables(ps[..|ps| - 1]) + if ps[|ps| - 1].IsReliable() then [] else [ps[|ps| - 1]]
  }

  lemma {:induction false} ReliablesConcat(ps: seq<Packet>, qs: seq<Packet>)
    ensures Reliables(ps + qs) == Reliables(ps) + Reliables(qs)
    ensures Unreliables(ps + qs) == Unreliables(ps) + Unreliables(qs)
  {
    if qs == [] {
      assert ps + qs == ps;
    } else {
      assert (ps + qs)[..|ps + qs| - 1] == ps + qs[..|qs| - 1];
      ReliablesConcat(ps, qs[..|qs| - 1]);
    }
  }

  lemma {:induction false} AllReliable(ps: seq<Packet>)
    requires forall i :: 0 <= i < |ps| ==> ps[i].IsReliable()
    ensures Reliables(ps) == ps && Unreliables(ps) == []
  {
    if ps != [] {
      AllReliable(ps[..|ps| - 1]);
    }
  }

  lemma NoneReliable(p: Packet)
    requires !p.IsReliable()
    ensures Reliables([p]) == [] && Unreliables([p]) == [p]
  {
    assert [p][..0] == [];
  }

  /** Packets received are kept under their own ids and are genuine. */
  ghost predicate StoredGenuine(start: Id, sent: seq<Packet>, received: map<Id, Packet>) {
    forall id :: id in received ==>
      id != INVALID_ID && received[id].id == id && received[id].IsReliable() && Genuine(start, sent, received[id])
  }

  predicate ReceivingGenuine(start: Id, sent: seq<Packet>, thread: Thread) {
    && (thread.ReceiveWait? || thread.AckWait? || thread.AckLocked? ==> Genuine(start, sent, thread.packet))
    && (thread.TrackAck? || thread.Store? ==> thread.packet.IsReliable() && Genuine(start, sent, thread.packet))
    && (thread.PushUnreliable? ==> !thread.packet.IsReliable())
  }

  /** `got` is, up to acknowledgements, the packets sent first: in order, without gap and without repeat. */
  ghost predicate IsPrefixOf(got: seq<Packet>, sent: seq<Packet>) {
    |got| <= |sent| && forall i :: 0 <= i < |got| ==> got[i].Content() == sent[i].Content()
  }

  ghost predicate Delivered(start: Id, sent: seq<Packet>, enqueued: seq<Packet>, sequence: Id) {
    IsPrefixOf(Reliables(enqueued), sent) && sequence == IdAt(start, |Reliables(enqueued)|)
  }

  ghost predicate RecvSide(start: Id, sent: seq<Packet>, e: Endpoint) {
    && StoredGenuine(start, sent, e.conn.incoming.reliable)
    && Delivered(start, sent, e.Enqueued(), e.conn.incoming.sequence)
    && forall t :: 0 <= t < |e.threads| ==> ReceivingGenuine(start, sent, e.threads[t])
  }

  lemma RecvSideGrows(start: Id, sent: seq<Packet>, more: seq<Packet>, e: Endpoint)
    requires RecvSide(start, sent, e)
    ensures RecvSide(start, sent + more, e)
  {
    var sent' := sent + more;
    forall p | Genuine(start, sent, p)
      ensures Genuine(start, sent', p)
    {
      GenuineGrows(start, sent, more, p);
    }
  }

  /** What a step makes ready for the application. */
  function EnqueuesNow(inc: Stream, ackId: Id, thread: Thread): seq<Packet>
    requires thread.Drain? ==> ackId != INVALID_ID
  {
    match thread
    case Drain => Released(inc.reliable, inc.sequence, ackId)
    case PushUnreliable(p) => [p]
    case _ => []
  }

  lemma EnqueuedStep(e: Endpoint, t: nat)
    requires Enabled(e, t)
    ensures Continue(e, t).Enqueued() == e.Enqueued() + EnqueuesNow(e.conn.incoming, e.conn.ackId, e.threads[t])
  {
    var inc, thread := e.conn.incoming, e.threads[t];
    if thread.PopInLocked? && inc.ready != [] {
      assert inc.ready == [inc.ready[0]] + inc.ready[1..];
    } else {
      assert NextIncoming(inc, e.conn.ackId, thread).ready == inc.ready + EnqueuesNow(inc, e.conn.ackId, thread);
    }
  }

  /** A packet kept under the id of a later position is the packet of that position, which has been sent. */
  lemma StoredAtPosition(start: Id, sent: seq<Packet>, received: map<Id, Packet>, u: nat)
    requires 1 <= u <= |sent| + 1 && |sent| < LAP
    requires StoredGenuine(start, sent, received) && IdAt(start, u) in received
    ensures u <= |sent| && received[IdAt(start, u)].Content() == sent[u - 1].Content()
    ensures received[IdAt(start, u)].IsReliable()
  {
    PosOfIdAt(start, u);
  }

  lemma {:induction false} ReleasedAreSent(
    start: Id, sent: seq<Packet>, received: map<Id, Packet>, k: nat, run: seq<Packet>)
    requires |sent| < LAP && k <= |sent| && StoredGenuine(start, sent, received)
    requires forall u :: k < u <= k + |run| ==>
               IdAt(start, u) in received && run[u - k - 1] == received[IdAt(start, u)]
    ensures k + |run| <= |sent|
    ensures forall i :: 0 <= i < |run| ==> run[i].Content() == sent[k + i].Content() && run[i].IsReliable()
  {
    if run != [] {
      var n, front := |run| - 1, run[..|run| - 1];
      forall u | k < u <= k + |front|
        ensures IdAt(start, u) in received && front[u - k - 1] == received[IdAt(start, u)]
      {
        assert run[u - k - 1] == received[IdAt(start, u)];
      }
      ReleasedAreSent(start, sent, received, k, front);
      var u := k + n + 1;
      assert run[u - k - 1] == received[IdAt(start, u)];
      StoredAtPosition(start, sent, received, u);
      forall i | 0 <= i < |run|
        ensures run[i].Content() == sent[k + i].Content() && run[i].IsReliable()
      {
        assert i < n ==> run[i] == front[i];
      }
    }
  }

  /** `run` is, up to acknowledgements, what was sent after the first `k` packets. */
  ghost predicate ComesNext(sent: seq<Packet>, k: nat, run: seq<Packet>) {
    && k + |run| <= |sent|
    && forall i :: 0 <= i < |run| ==> run[i].Content() == sent[k + i].Content() && run[i].IsReliable()
  }

  lemma ReleasedFollows(
    start: Id, sent: seq<Packet>, received: map<Id, Packet>, k: nat, latest: Id, run: seq<Packet>, last: Id)
    requires |sent| < LAP && k <= |sent| && latest != INVALID_ID && StoredGenuine(start, sent, received)
    requires run == Released(received, IdAt(start, k), latest) && last == LastReleased(received, IdAt(start, k), latest)
    ensures last == IdAt(start, k + |run|) && ComesNext(sent, k, run)
  {
    ReleasedPositions(received, start, k, latest);
    ReleasedAreSent(start, sent, received, k, run);
  }

  lemma PrefixAppend(got: seq<Packet>, run: seq<Packet>, sent: seq<Packet>)
    requires IsPrefixOf(got, sent) && |got| + |run| <= |sent|
    requires forall i :: 0 <= i < |run| ==> run[i].Content() == sent[|got| + i].Content()
    ensures IsPrefixOf(got + run, sent)
  {
    forall i | 0 <= i < |got + run|
      ensures (got + run)[i].Content() == sent[i].Content()
    {
      if i >= |got| {
        assert (got + run)[i] == run[i - |got|];
      }
    }
  }

  /** What the loop releases continues the delivered prefix, whatever order the packets came in. */
  lemma DrainContinuesPrefix(
    start: Id, sent: seq<Packet>, inc: Stream, got: seq<Packet>, latest: Id, run: seq<Packet>, last: Id)
    requires |sent| < LAP && latest != INVALID_ID
    requires StoredGenuine(start, sent, inc.reliable) && IsPrefixOf(got, sent) && inc.sequence == IdAt(start, |got|)
    requires run == Released(inc.reliable, inc.sequence, latest)
    requires last == LastReleased(inc.reliable, inc.sequence, latest)
    ensures IsPrefixOf(got + run, sent) && last == IdAt(start, |got + run|)
    ensures Reliables(run) == run && Unreliables(run) == []
  {
    ReleasedFollows(start, sent, inc.reliable, |got|, latest, run, last);
    ContinuesPrefix(got, run, sent);
  }

  lemma ContinuesPrefix(got: seq<Packet>, run: seq<Packet>, sent: seq<Packet>)
    requires IsPrefixOf(got, sent) && ComesNext(sent, |got|, run)
    ensures IsPrefixOf(got + run, sent) && |got + run| == |got| + |run|
    ensures Reliables(run) == run && Unreliables(run) == []
  {
    PrefixAppend(got, run, sent);
    AllReliable(run);
  }

  lemma IncomingStep(start: Id, sent: seq<Packet>, inc: Stream, ackId: Id, got: seq<Packet>, thread: Thread)
    requires |sent| < LAP && (thread.Drain? ==> ackId != INVALID_ID)
    requires StoredGenuine(start, sent, inc.reliable) && ReceivingGenuine(start, sent, thread)
    requires IsPrefixOf(got, sent) && inc.sequence == IdAt(start, |got|)
    ensures var inc', new' := NextIncoming(inc, ackId, thread), EnqueuesNow(inc, ackId, thread);
            && StoredGenuine(start, sent, inc'.reliable)
            && IsPrefixOf(got + Reliables(new'), sent)
            && inc'.sequence == IdAt(start, |got + Reliables(new')|)
  {
    assert got + [] == got;
    if thread.Drain? {
      DrainContinuesPrefix(start, sent, inc, got, ackId, Released(inc.reliable, inc.sequence, ackId),
                           LastReleased(inc.reliable, inc.sequence, ackId));
    } else if thread.PushUnreliable? {
      NoneReliable(thread.packet);
    }
  }

  lemma RecvSideStep(start: Id, sent: seq<Packet>, e: Endpoint, t: nat)
    requires RecvSide(start, sent, e) && Enabled(e, t) && |sent| < LAP
    ensures RecvSide(start, sent, Continue(e, t))
  {
    var inc, ackId, thread := e.conn.incoming, e.conn.ackId, e.threads[t];
    EnqueuedStep(e, t);
    IncomingStep(start, sent, inc, ackId, Reliables(e.Enqueued()), thread);
    ReliablesConcat(e.Enqueued(), EnqueuesNow(inc, ackId, thread));
    assert ReceivingGenuine(start, sent, NextThread(e.conn, thread));
  }

  // ---------- unreliable packets pass straight through ----------

  predicate SortedByReliability(thread: Thread) {
    && (thread.TrackAck? || thread.Store? ==> thread.packet.IsReliable())
    && (thread.PushUnreliable? ==> !thread.packet.IsReliable())
  }

  /** The application gets every unreliable packet once, in order of arrival. */
  ghost predicate ArrivalSide(e: Endpoint) {
    && (forall id :: id in e.conn.incoming.reliable ==> e.conn.incoming.reliable[id].IsReliable())
    && Unreliables(e.Enqueued()) == e.arrivals
    && forall t :: 0 <= t < |e.threads| ==> SortedByReliability(e.threads[t])
  }

  lemma {:induction false} ReleasedIsReliable(received: map<Id, Packet>, next: Id, latest: Id)
    requires latest != INVALID_ID
    requires forall id :: id in received ==> received[id].IsReliable()
    ensures forall i :: 0 <= i < |Released(received, next, latest)| ==> Released(received, next, latest)[i].IsReliable()
    decreases Distance(next, latest)
  {
    if next != latest && Succ(next) in received {
      DistanceShrinks(next, latest);
      ReleasedIsReliable(received, Succ(next), latest);
    }
  }

  lemma ArrivalSideStep(e: Endpoint, t: nat)
    requires ArrivalSide(e) && Enabled(e, t)
    ensures ArrivalSide(Continue(e, t))
  {
    var inc, thread := e.conn.incoming, e.threads[t];
    var new' := EnqueuesNow(inc, e.conn.ackId, thread);
    EnqueuedStep(e, t);
    ReliablesConcat(e.Enqueued(), new');
    if thread.Drain? {
      ReleasedIsReliable(inc.reliable, inc.sequence, e.conn.ackId);
      AllReliable(new');
    } else if thread.PushUnreliable? {
      NoneReliable(thread.packet);
    }
    assert SortedByReliability(NextThread(e.conn, thread));
  }

  // ---------- what has been acknowledged is not sent again ----------

  ghost predicate NoCopyOf(ps: seq<Packet>, id: Id) {
    forall i :: 0 <= i < |ps| && ps[i].IsReliable() ==> ps[i].id != id
  }

  lemma KeptUnderOwnId(start: Id, sent: seq<Packet>, out: Stream, id: Id)
    requires SendState(start, sent, out) && id in out.reliable
    ensures out.reliable[id].id == id
  {
    IdAtPosOf(start, id);
  }

  /** Within a lap the next id is not that of a packet scheduled before. */
  lemma NextIdIsNew(start: Id, sent: seq<Packet>, out: Stream, i: nat)
    requires SendState(start, sent, out) && i < |sent| && |sent| + 1 < LAP
    ensures Succ(out.sequence) != sent[i].id
  {
    SuccIdAt(start, |sent|);
    IdsApart(start, i + 1, |sent| + 1);
  }

  /** What is made ready again is kept, and kept under its own id. */
  lemma ResentAreKept(start: Id, sent: seq<Packet>, out: Stream, thread: Thread, id: Id)
    requires SendState(start, sent, out) && id !in out.reliable && !thread.ScheduleLocked?
    ensures NoCopyOf(PushesNow(out, thread), id)
  {
    if thread.AckLocked? && thread.visit > 0 {
      var resent := WindowId(thread.packet.ackId, thread.visit - 1);
      if resent in out.reliable {
        KeptUnderOwnId(start, sent, out, resent);
      }
    }
  }

  /** Once a scheduled id is erased it is not kept again, and no copy of its packet is made ready. */
  lemma ErasedStep(start: Id, sent: seq<Packet>, out: Stream, thread: Thread, i: nat)
    requires SendState(start, sent, out) && i < |sent| && sent[i].id !in out.reliable
    requires |sent + SchedulesNow(out, thread)| < LAP
    ensures sent[i].id !in NextOutgoing(out, thread).reliable
    ensures NoCopyOf(PushesNow(out, thread), sent[i].id)
  {
    if thread.ScheduleLocked? {
      if thread.packet.IsReliable() {
        NextIdIsNew(start, sent, out, i);
      }
    } else {
      ResentAreKept(start, sent, out, thread, sent[i].id);
    }
  }
}
