/**
 A call that runs undisturbed does in its steps what the methods of `Connection` do: the interleaved system and
 the class describe one program.
 */
module Sequential {
  import opened Ids
  import opened Packets
  import opened Connections
  import opened Endpoints

  /** The states that thread `t` goes through when it moves alone. */
  ghost predicate IsPath(path: seq<Endpoint>, t: nat) {
    path != [] &&
    (|path| == 1 ||
     (var front := path[..|path| - 1];
      IsPath(front, t) && Enabled(front[|front| - 1], t) && path[|path| - 1] == Continue(front[|front| - 1], t)))
  }

  /** Thread `t`, moving alone, leads from `e` to `e'`. */
  ghost predicate Leads(path: seq<Endpoint>, t: nat, e: Endpoint, e': Endpoint) {
    IsPath(path, t) && path[0] == e && path[|path| - 1] == e'
  }

  lemma Extend(path: seq<Endpoint>, t: nat, e: Endpoint, mid: Endpoint, e': Endpoint) returns (longer: seq<Endpoint>)
    requires Leads(path, t, e, mid) && Enabled(mid, t) && e' == Continue(mid, t)
    ensures Leads(longer, t, e, e')
  {
    longer := path + [e'];
    assert longer[..|longer| - 1] == path;
  }

  /** Nobody holds a lock. */
  predicate Unlocked(e: Endpoint) {
    e.outLock == FREE && e.inLock == FREE
  }

  /** `e` after thread `t` has scheduled `p`. */
  function DoneSchedule(e: Endpoint, t: nat, p: Packet): Endpoint
    requires t < |e.threads|
  {
    e.(conn := e.conn.(outgoing := Scheduled(e.conn.outgoing, p)),
       threads := e.threads[t := Idle],
       scheduled := e.scheduled + SchedulesNow(e.conn.outgoing, ScheduleLocked(p)))
  }

  /** `Schedule`, run alone, is `Connection.Schedule`. */
  lemma SoloSchedule(e: Endpoint, t: nat, p: Packet) returns (path: seq<Endpoint>)
    requires Unlocked(e) && t < |e.threads| && e.threads[t] == ScheduleWait(p)
    ensures Leads(path, t, e, DoneSchedule(e, t, p))
  {
    var locked := Continue(e, t);
    path := Extend([e], t, e, e, locked);
    assert e.threads[t := ScheduleLocked(p)][t := Idle] == e.threads[t := Idle];
    path := Extend(path, t, e, locked, DoneSchedule(e, t, p));
  }

  function DonePop(e: Endpoint, t: nat): Endpoint
    requires t < |e.threads|
  {
    var inc := e.conn.incoming;
    e.(conn := e.conn.(incoming := if inc.ready == [] then inc else inc.(ready := inc.ready[1..])),
       threads := e.threads[t := Idle], consumed := e.consumed + ConsumesNow(inc, PopInLocked))
  }

  /** `PopReadyIncomingPacket`, run alone, is the method of that name. */
  lemma SoloPopIncoming(e: Endpoint, t: nat) returns (path: seq<Endpoint>)
    requires Unlocked(e) && t < |e.threads| && e.threads[t] == PopInWait
    ensures Leads(path, t, e, DonePop(e, t))
  {
    var locked := Continue(e, t);
    path := Extend([e], t, e, e, locked);
    assert e.threads[t := PopInLocked][t := Idle] == e.threads[t := Idle];
    path := Extend(path, t, e, locked, DonePop(e, t));
  }

  // ---------- Received ----------

  /** `e` with the incoming lock taken by `t`, and the outgoing stream and the thread replaced. */
  function Processing(e: Endpoint, t: nat, out: Stream, thread: Thread): Endpoint
    requires t < |e.threads|
  {
    e.(conn := e.conn.(outgoing := out), inLock := Exclusive(t), threads := e.threads[t := thread])
  }

  /** The thread after `n` visits of `ProcessAcks`. */
  function AfterVisits(p: Packet, n: nat): Thread
    requires n <= ACK_COUNT + 1
  {
    if n <= ACK_COUNT then AckWait(p, n) else if p.IsReliable() then TrackAck(p) else PushUnreliable(p)
  }

  lemma OneVisit(e: Endpoint, t: nat, p: Packet, n: nat, out: Stream, mid: Endpoint)
    requires t < |e.threads| && n <= ACK_COUNT && e.outLock == FREE
    requires mid == Processing(e, t, out, AckWait(p, n))
    ensures Enabled(mid, t) && Enabled(Continue(mid, t), t)
    ensures Continue(Continue(mid, t), t) == Processing(e, t, AckVisit(out, p, n), AfterVisits(p, n + 1))
  {
    var locked := Continue(mid, t);
    assert locked.threads == e.threads[t := AckLocked(p, n)];
    assert Continue(locked, t).threads == e.threads[t := AfterVisits(p, n + 1)];
  }

  /** `n` visits have been made. */
  lemma {:induction false} SoloVisits(e: Endpoint, t: nat, p: Packet, n: nat) returns (path: seq<Endpoint>)
    requires Unlocked(e) && t < |e.threads| && e.threads[t] == ReceiveWait(p) && n <= ACK_COUNT + 1
    ensures Leads(path, t, e, Processing(e, t, AfterAckVisits(e.conn.outgoing, p, n), AfterVisits(p, n)))
  {
    if n == 0 {
      path := Extend([e], t, e, e, Processing(e, t, e.conn.outgoing, AckWait(p, 0)));
    } else {
      path := SoloVisits(e, t, p, n - 1);
      var out := AfterAckVisits(e.conn.outgoing, p, n - 1);
      path := TwoSteps(path, t, e, p, n - 1, out);
    }
  }

  lemma TwoSteps(path: seq<Endpoint>, t: nat, e: Endpoint, p: Packet, n: nat, out: Stream)
    returns (longer: seq<Endpoint>)
    requires t < |e.threads| && n <= ACK_COUNT && e.outLock == FREE
    requires Leads(path, t, e, Processing(e, t, out, AckWait(p, n)))
    ensures Leads(longer, t, e, Processing(e, t, AckVisit(out, p, n), AfterVisits(p, n + 1)))
  {
    var mid := Processing(e, t, out, AckWait(p, n));
    OneVisit(e, t, p, n, out, mid);
    var locked := Continue(mid, t);
    longer := Extend(path, t, e, mid, locked);
    longer := Extend(longer, t, e, locked, Continue(locked, t));
  }

  /** `e` after thread `t` has received `p`. */
  function DoneReceive(e: Endpoint, t: nat, p: Packet, out: Stream): Endpoint
    requires t < |e.threads| && (p.IsReliable() ==> p.id != INVALID_ID)
  {
    e.(conn := Conn(out, IncomingAfter(e.conn.incoming, e.conn.ackId, p), AckIdAfter(e.conn.ackId, p)),
       threads := e.threads[t := Idle], arrivals := e.arrivals + if p.IsReliable() then [] else [p])
  }

  lemma ReliableTail(path: seq<Endpoint>, e: Endpoint, t: nat, p: Packet, out: Stream) returns (longer: seq<Endpoint>)
    requires Unlocked(e) && t < |e.threads| && p.IsReliable() && p.id != INVALID_ID
    requires Leads(path, t, e, Processing(e, t, out, TrackAck(p)))
    ensures Leads(longer, t, e, DoneReceive(e, t, p, out))
  {
    var tracking := Processing(e, t, out, TrackAck(p));
    var storing := Continue(tracking, t);
    var draining := Continue(storing, t);
    longer := Extend(path, t, e, tracking, storing);
    longer := Extend(longer, t, e, storing, draining);
    assert draining.threads == e.threads[t := Drain];
    longer := Extend(longer, t, e, draining, DoneReceive(e, t, p, out));
  }

  lemma UnreliableTail(path: seq<Endpoint>, e: Endpoint, t: nat, p: Packet, out: Stream) returns (longer: seq<Endpoint>)
    requires Unlocked(e) && t < |e.threads| && !p.IsReliable()
    requires Leads(path, t, e, Processing(e, t, out, PushUnreliable(p)))
    ensures Leads(longer, t, e, DoneReceive(e, t, p, out))
  {
    var pushing := Processing(e, t, out, PushUnreliable(p));
    assert pushing.threads[t := Idle] == e.threads[t := Idle];
    longer := Extend(path, t, e, pushing, DoneReceive(e, t, p, out));
  }

  /** `Received`, with its lock acquisitions and critical sections, is `Connection.Receive`. */
  lemma SoloReceive(e: Endpoint, t: nat, p: Packet, done: Endpoint) returns (path: seq<Endpoint>)
    requires Unlocked(e) && t < |e.threads| && e.threads[t] == ReceiveWait(p)
    requires p.IsReliable() ==> p.id != INVALID_ID
    requires done == e.(conn := Received(e.conn, p), threads := e.threads[t := Idle],
                        arrivals := e.arrivals + if p.IsReliable() then [] else [p])
    ensures Leads(path, t, e, done)
  {
    var n := ACK_COUNT + 1;
    var out := AfterAckVisits(e.conn.outgoing, p, n);
    path := SoloVisits(e, t, p, n);
    if p.IsReliable() {
      path := ReliableTail(path, e, t, p, out);
    } else {
      path := UnreliableTail(path, e, t, p, out);
    }
  }

  // ---------- PopReadyOutgoingPacket ----------

  /** `e` with its first ready packet popped by `t`, which is now at `thread`. */
  function Popping(e: Endpoint, t: nat, thread: Thread): Endpoint
    requires t < |e.threads| && e.conn.outgoing.ready != []
  {
    var out := e.conn.outgoing;
    e.(conn := e.conn.(outgoing := out.(ready := out.ready[1..])),
       popped := e.popped + [out.ready[0]], threads := e.threads[t := thread])
  }

  /** The first ready packet with its first `i` bits filled in. */
  function Header(e: Endpoint, i: nat): Packet
    requires e.conn.outgoing.ready != [] && i <= ACK_COUNT
  {
    AckHeader(e.conn.outgoing.ready[0], e.conn.ackId, e.conn.incoming.reliable, i)
  }

  lemma OneLookup(e: Endpoint, t: nat, i: nat, mid: Endpoint)
    requires Unlocked(e) && t < |e.threads| && e.conn.outgoing.ready != [] && i < ACK_COUNT
    requires mid == Popping(e, t, LookWait(Header(e, i), i))
    ensures Enabled(mid, t) && Enabled(Continue(mid, t), t)
    ensures Continue(Continue(mid, t), t) ==
            if i + 1 < ACK_COUNT then Popping(e, t, LookWait(Header(e, i + 1), i + 1))
            else Popping(e, t, Idle).(departed := e.departed + [Header(e, ACK_COUNT)])
  {
    var locked := Continue(mid, t);
    assert locked.threads == e.threads[t := LookLocked(Header(e, i), i)];
    assert {t} - {t} == {};
    assert Marked(Header(e, i), i, e.conn.incoming.reliable) == Header(e, i + 1);
    var next := if i + 1 < ACK_COUNT then LookWait(Header(e, i + 1), i + 1) else Idle;
    assert Continue(locked, t).threads == e.threads[t := next];
  }

  lemma SoloPop(e: Endpoint, t: nat) returns (path: seq<Endpoint>)
    requires Unlocked(e) && t < |e.threads| && e.threads[t] == PopOutWait && e.conn.outgoing.ready != []
    ensures Leads(path, t, e, Popping(e, t, LookWait(Header(e, 0), 0)))
  {
    var p := e.conn.outgoing.ready[0];
    var locked, loading := Continue(e, t), Popping(e, t, LoadAck(p));
    path := Extend([e], t, e, e, locked);
    assert e.threads[t := PopOutLocked][t := LoadAck(p)] == e.threads[t := LoadAck(p)];
    path := Extend(path, t, e, locked, loading);
    assert e.threads[t := LoadAck(p)][t := LookWait(Header(e, 0), 0)] == e.threads[t := LookWait(Header(e, 0), 0)];
    path := Extend(path, t, e, loading, Popping(e, t, LookWait(Header(e, 0), 0)));
  }

  /** `e` after thread `t` has sent its first ready packet. */
  function DoneSend(e: Endpoint, t: nat): Endpoint
    requires t < |e.threads| && e.conn.outgoing.ready != []
  {
    Popping(e, t, Idle).(departed := e.departed + [Header(e, ACK_COUNT)])
  }

  lemma Lookup(path: seq<Endpoint>, e: Endpoint, t: nat, i: nat, e': Endpoint) returns (longer: seq<Endpoint>)
    requires Unlocked(e) && t < |e.threads| && e.conn.outgoing.ready != [] && i < ACK_COUNT
    requires Leads(path, t, e, Popping(e, t, LookWait(Header(e, i), i)))
    requires e' == if i + 1 < ACK_COUNT then Popping(e, t, LookWait(Header(e, i + 1), i + 1)) else DoneSend(e, t)
    ensures Leads(longer, t, e, e')
  {
    var mid := Popping(e, t, LookWait(Header(e, i), i));
    OneLookup(e, t, i, mid);
    var locked := Continue(mid, t);
    longer := Extend(path, t, e, mid, locked);
    longer := Extend(longer, t, e, locked, e');
  }

  /** `i` lookups have been made. */
  lemma {:induction false} SoloLookups(e: Endpoint, t: nat, i: nat) returns (path: seq<Endpoint>)
    requires Unlocked(e) && t < |e.threads| && e.threads[t] == PopOutWait && e.conn.outgoing.ready != []
    requires i < ACK_COUNT
    ensures Leads(path, t, e, Popping(e, t, LookWait(Header(e, i), i)))
  {
    if i == 0 {
      path := SoloPop(e, t);
    } else {
      path := SoloLookups(e, t, i - 1);
      path := Lookup(path, e, t, i - 1, Popping(e, t, LookWait(Header(e, i), i)));
    }
  }

  /** `PopReadyOutgoingPacket`, with the load and four lookups it makes, is the method of that name. */
  lemma SoloSend(e: Endpoint, t: nat) returns (path: seq<Endpoint>)
    requires Unlocked(e) && t < |e.threads| && e.threads[t] == PopOutWait && e.conn.outgoing.ready != []
    ensures Leads(path, t, e, DoneSend(e, t))
  {
    var last := ACK_COUNT - 1;
    path := SoloLookups(e, t, last);
    path := Lookup(path, e, t, last, DoneSend(e, t));
  }

  /** With nothing ready the call returns nothing and sends nothing. */
  lemma SoloSendNothing(e: Endpoint, t: nat) returns (path: seq<Endpoint>)
    requires Unlocked(e) && t < |e.threads| && e.threads[t] == PopOutWait && e.conn.outgoing.ready == []
    ensures Leads(path, t, e, e.(threads := e.threads[t := Idle]))
  {
    var locked := Continue(e, t);
    path := Extend([e], t, e, e, locked);
    assert e.threads[t := PopOutLocked][t := Idle] == e.threads[t := Idle];
    path := Extend(path, t, e, locked, e.(threads := e.threads[t := Idle]));
  }
}
