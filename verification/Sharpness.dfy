/**
 The bounds on delivery cannot be raised. With 65535 reliable packets scheduled, all of them arrive in order, the
 network repeats the first, and the application gets it twice. With 32768 the acknowledgement can stay behind the
 furthest packet received.
 */
module Sharpness {
  import opened Ids
  import opened Packets
  import opened Connections
  import opened Endpoints
  import opened Invariants
  import opened Maximality
  import opened Network
  import opened Calls
  import opened Bursts
  import L = Laps

  // ---------- a lap in order, and the first packet again ----------

  /** The first `g.prefix` packets of the stream have arrived in order. */
  ghost predicate RightLined(start: Id, stream: seq<Packet>, y: Endpoint, g: L.Progress) {
    Ready(y) && g.prefix == g.furthest && L.OnTrack(start, stream, L.ReceiverOf(y), g)
  }

  /** The next packet arrives in order. */
  lemma NextArrives(start: Id, stream: seq<Packet>, r: L.Receiver, g: L.Progress, p: Packet) returns (g': L.Progress)
    requires L.OnTrack(start, stream, r, g) && g.prefix == g.furthest < |stream|
    requires L.Fits(start, stream, L.Arrival(g.prefix + 1, p))
    ensures L.OnTrack(start, stream, L.Handle(r, L.Arrival(g.prefix + 1, p)), g')
    ensures g'.prefix == g'.furthest == g.prefix + 1
  {
    var e := L.Arrival(g.prefix + 1, p);
    g' := L.Advance(g, e);
    L.ContiguousIsLongest(g.seen + {g.prefix + 1}, g.prefix, g.prefix + 1);
    L.ArrivalStep(start, stream, r, g, g.prefix + 1, p, L.Handle(r, e), g');
  }

  lemma OneArrives(s: System, actions: seq<Action>, s0: System, start: Id, stream: seq<Packet>, u: nat)
    returns (longer: seq<Action>, p: Packet)
    requires s0 == Run(s, actions) && Ready(s0.right) && 1 <= u && HasDeparted(start, stream, s0.left, u)
    ensures var s1 := Run(s, longer);
            && L.Fits(start, stream, L.Arrival(u, p)) && s1.left == s0.left && Ready(s1.right)
            && L.ReceiverOf(s1.right) == L.Handle(L.ReceiverOf(s0.right), L.Arrival(u, p))
  {
    longer, p := PositionArrives(s, actions, s0, start, stream, u);
  }

  /** `n` packets that have departed arrive in order. */
  lemma {:induction false} ArriveInOrder(
    s: System, actions: seq<Action>, s0: System, start: Id, stream: seq<Packet>, n: nat)
    returns (longer: seq<Action>, g: L.Progress)
    requires s0 == Run(s, actions) && n <= |stream| && HasSent(start, stream, s0.left, |stream|)
    requires RightLined(start, stream, s0.right, L.Progress({}, 0, 0))
    ensures var s1 := Run(s, longer);
            s1.left == s0.left && RightLined(start, stream, s1.right, g) && g.prefix == n
  {
    if n == 0 {
      longer, g := actions, L.Progress({}, 0, 0);
    } else {
      var shorter, p;
      shorter, g := ArriveInOrder(s, actions, s0, start, stream, n - 1);
      var s1 := Run(s, shorter);
      longer, p := OneArrives(s, shorter, s1, start, stream, n);
      g := NextArrives(start, stream, L.ReceiverOf(s1.right), g, p);
    }
  }

  /**
   From any starting numbers there is a run with exactly 65535 reliable packets scheduled, one more than
   `InOrderExactlyOnce` allows, after which the application has not got a prefix of what was scheduled.
   */
  lemma LapBoundIsSharp(s: System, leftStart: Id, rightStart: Id, payload: Payload) returns (actions: seq<Action>)
    requires Init(s, leftStart, rightStart) && |s.left.threads| > 0 && |s.right.threads| > 0
    ensures |Run(s, actions).left.scheduled| == LAP
    ensures !IsPrefixOf(Reliables(Run(s, actions).right.Enqueued()), Run(s, actions).left.scheduled)
  {
    var base, stream := LapOfData(leftStart, payload);
    var sent := BurstDeparts(s, [], s, leftStart, base, stream, 0, LAP);
    var g, p;
    actions, g := ArriveInOrder(s, sent, Run(s, sent), leftStart, stream, LAP);
    var before := Run(s, actions);
    actions, p := OneArrives(s, actions, before, leftStart, stream, 1);
    L.DuplicateHarmlessIff(leftStart, stream, L.ReceiverOf(before.right), g, 1, p);
    assert !InTrackingRange(leftStart, LAP, 1);
    assert stream[..LAP] == stream;
  }

  // ---------- half a lap apart ----------

  /** Position 32768 is not taken for later than position 1, unless the ids wrap in between. */
  lemma TooFarAhead(start: Id)
    requires start + HALF_ID + 1 <= MAX_POSSIBLE_ID
    ensures IdAt(start, 1) == start + 1 && IdAt(start, HALF_ID + 1) == start + HALF_ID + 1
    ensures UpdatedAck(IdAt(start, 1), IdAt(start, HALF_ID + 1)) == IdAt(start, 1)
    ensures PosOf(start, IdAt(start, 1)) == 1 && PosOf(start, IdAt(start, HALF_ID + 1)) == HALF_ID + 1
  {
    PosOfIdAt(start, 1);
    PosOfIdAt(start, HALF_ID + 1);
  }

  /**
   From any starting number up to 32767 there is a run with exactly 32768 reliable packets scheduled, one more than
   `DeliveryIsMaximal` allows, after which no `Received` is in its critical section and yet a packet beyond the
   acknowledged id has been received. From a later start the ids wrap between the two packets that are received, and
   by `UpdateTracksMaxIff` that distance is still tracked.
   */
  lemma HalfLapBoundIsSharp(s: System, leftStart: Id, rightStart: Id, payload: Payload) returns (actions: seq<Action>)
    requires Init(s, leftStart, rightStart) && |s.left.threads| > 0 && |s.right.threads| > 0
    requires leftStart + HALF_ID + 1 <= MAX_POSSIBLE_ID
    ensures var x, y := Run(s, actions).left, Run(s, actions).right;
            && |x.scheduled| == HALF_ID + 1 && y.inLock.Shared?
            && !NoneBeyond(leftStart, y.conn.incoming.reliable, y.conn.ackId)
  {
    var base, stream := LapOfData(leftStart, payload);
    var sent := BurstDeparts(s, [], s, leftStart, base, stream, 0, HALF_ID + 1);
    var p, q;
    actions, p := PositionArrives(s, sent, Run(s, sent), leftStart, stream, 1);
    actions, q := PositionArrives(s, actions, Run(s, actions), leftStart, stream, HALF_ID + 1);
    TooFarAhead(leftStart);
    assert IdAt(leftStart, HALF_ID + 1) in Run(s, actions).right.conn.incoming.reliable;
  }
}
