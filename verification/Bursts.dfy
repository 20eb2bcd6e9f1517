/** Runs in which one side sends many reliable packets, one after the other, and the other side hears nothing of it. */
module Bursts {
  import opened Ids
  import opened Packets
  import opened Connections
  import opened AckWindow
  import opened Endpoints
  import opened Network
  import opened Calls
  import L = Laps

  /** `length` copies of one packet, numbered from `start`. */
  function Copies(start: Id, p: Packet, length: nat): seq<Packet> {
    if length == 0 then [] else Copies(start, p, length - 1) + [p.(id := IdAt(start, length))]
  }

  lemma {:induction false} CopiesAt(start: Id, p: Packet, length: nat, i: nat)
    requires i < length
    ensures |Copies(start, p, length)| == length && Copies(start, p, length)[i] == p.(id := IdAt(start, i + 1))
    ensures Copies(start, p, length)[..i] == Copies(start, p, i)
  {
    if i < length - 1 {
      CopiesAt(start, p, length - 1, i);
    } else if length > 1 {
      CopiesAt(start, p, length - 1, 0);
    }
  }

  /** A lap of copies of one reliable packet. */
  ghost predicate LapOf(start: Id, base: Packet, stream: seq<Packet>) {
    stream == Copies(start, base, LAP) && |stream| == LAP && base.IsReliable()
  }

  lemma LapOfData(start: Id, payload: Payload) returns (base: Packet, stream: seq<Packet>)
    ensures LapOf(start, base, stream) && base == Make(Data, RELIABLE, payload)
  {
    base := Make(Data, RELIABLE, payload);
    HeaderRoundTrip(Data, RELIABLE, RELIABLE, payload);
    stream := Copies(start, base, LAP);
    CopiesAt(start, base, LAP, 0);
  }

  /** A packet with the content of a stream position is a copy of it. */
  lemma ContentFits(start: Id, base: Packet, stream: seq<Packet>, u: nat, p: Packet)
    requires LapOf(start, base, stream) && 1 <= u <= LAP
    requires p.Content() == base.(id := IdAt(start, u)).Content()
    ensures stream[u - 1] == base.(id := IdAt(start, u)) && L.Fits(start, stream, L.Arrival(u, p))
  {
    CopiesAt(start, base, LAP, u - 1);
    assert p.header == p.Content().header == base.header && p.id == p.Content().id;
  }

  ghost predicate HasDeparted(start: Id, stream: seq<Packet>, x: Endpoint, u: nat) {
    exists p :: p in x.departed && L.Fits(start, stream, L.Arrival(u, p))
  }

  /** The first `n` packets of the stream have been scheduled and have departed. */
  ghost predicate HasSent(start: Id, stream: seq<Packet>, x: Endpoint, n: nat) {
    && Ready(x) && n <= |stream| && x.scheduled == stream[..n]
    && x.conn.outgoing.ready == [] && x.conn.outgoing.sequence == IdAt(start, n)
    && forall u :: 1 <= u <= n ==> HasDeparted(start, stream, x, u)
  }

  lemma DepartedGrows(start: Id, stream: seq<Packet>, x: Endpoint, x': Endpoint, n: nat, p: Packet)
    requires forall u :: 1 <= u <= n ==> HasDeparted(start, stream, x, u)
    requires x'.departed == x.departed + [p] && L.Fits(start, stream, L.Arrival(n + 1, p))
    ensures forall u :: 1 <= u <= n + 1 ==> HasDeparted(start, stream, x', u)
  {
    forall u | 1 <= u <= n + 1
      ensures HasDeparted(start, stream, x', u)
    {
      if u <= n {
        assert HasDeparted(start, stream, x, u);
        var q :| q in x.departed && L.Fits(start, stream, L.Arrival(u, q));
        assert q in x'.departed;
      } else {
        assert p in x'.departed;
      }
    }
  }

  /** The next packet of the stream is scheduled and sent. */
  lemma NextDeparts(s: System, actions: seq<Action>, s0: System, start: Id, base: Packet, stream: seq<Packet>, n: nat)
    returns (longer: seq<Action>)
    requires LapOf(start, base, stream) && n < LAP && s0 == Run(s, actions) && HasSent(start, stream, s0.left, n)
    ensures var s1 := Run(s, longer);
            HasSent(start, stream, s1.left, n + 1) && s1.right == s0.right && s1.left.threads == s0.left.threads
  {
    var x, numbered := s0.left, base.(id := IdAt(start, n + 1));
    SuccIdAt(start, n);
    longer := ScheduleAndSend(s, actions, s0, Left, base);
    var p := AckHeader(numbered, x.conn.ackId, x.conn.incoming.reliable, ACK_COUNT);
    HeaderBits(numbered, x.conn.ackId, x.conn.incoming.reliable, ACK_COUNT, 0);
    ContentFits(start, base, stream, n + 1, p);
    assert stream[..n + 1] == stream[..n] + [stream[n]];
    DepartedGrows(start, stream, x, Run(s, longer).left, n, p);
  }

  /** The first `n` packets of the stream are sent; those before `m` had been sent already. */
  lemma {:induction false} BurstDeparts(
    s: System, actions: seq<Action>, s0: System, start: Id, base: Packet, stream: seq<Packet>, m: nat, n: nat)
    returns (longer: seq<Action>)
    requires LapOf(start, base, stream) && m <= n <= LAP && s0 == Run(s, actions)
    requires HasSent(start, stream, s0.left, m)
    ensures var s1 := Run(s, longer);
            HasSent(start, stream, s1.left, n) && s1.right == s0.right && s1.left.threads == s0.left.threads
    decreases n
  {
    if n == m {
      longer := actions;
    } else {
      var shorter := BurstDeparts(s, actions, s0, start, base, stream, m, n - 1);
      longer := NextDeparts(s, shorter, Run(s, shorter), start, base, stream, n - 1);
    }
  }

  /** Thread 0 on the right receives the packet at position `u`. */
  lemma PositionArrives(s: System, actions: seq<Action>, s0: System, start: Id, stream: seq<Packet>, u: nat)
    returns (longer: seq<Action>, p: Packet)
    requires s0 == Run(s, actions) && Ready(s0.right) && 1 <= u && HasDeparted(start, stream, s0.left, u)
    ensures var s1 := Run(s, longer);
            && L.Fits(start, stream, L.Arrival(u, p)) && p.id != INVALID_ID
            && s1 == With(s0, Right, s1.right) && Ready(s1.right) && s1.right.threads == s0.right.threads
            && s1.right.consumed == s0.right.consumed && s1.right.conn == Received(s0.right.conn, p)
  {
    p :| p in s0.left.departed && L.Fits(start, stream, L.Arrival(u, p));
    SuccIdAt(start, u - 1);
    var more := CallReceives(s, actions, s0, Right, 0, p);
    longer := actions + more;
  }
}
