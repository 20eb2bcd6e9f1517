/**
 One receiver over any number of laps of the id space. The map of received packets is never pruned, so after a
 lap every id is present and a missing packet is answered by a stale one. This module finds exactly when that
 matters.
 */
module Laps {
  import opened Ids
  import opened Packets
  import opened Connections
  import opened Endpoints
  import opened Invariants

  /** What happens to the receiver. An arrival is a copy of the packet at some position of the stream. */
  datatype Event =
    | Arrival(position: nat, packet: Packet)
    | Datagram(packet: Packet)
    | Pop

  /** The receiving half of a connection, and what the application has consumed so far. */
  datatype Receiver = Receiver(incoming: Stream, ackId: Id, consumed: seq<Packet>) {
    function Enqueued(): seq<Packet> {
      consumed + incoming.ready
    }
  }

  function ReceiverOf(e: Endpoint): Receiver {
    Receiver(e.conn.incoming, e.conn.ackId, e.consumed)
  }

  /** `stream[u - 1]` is the reliable packet at position u. */
  ghost predicate Fits(start: Id, stream: seq<Packet>, e: Event) {
    match e
    case Arrival(u, p) =>
      1 <= u <= |stream| && p.IsReliable() && p.id == IdAt(start, u) && p.Content() == stream[u - 1].Content()
    case Datagram(p) => !p.IsReliable()
    case Pop => true
  }

  /** A reliable packet carries an id: the source asserts it. */
  predicate Acceptable(e: Event) {
    match e
    case Arrival(_, p) => p.IsReliable() && p.id != INVALID_ID
    case Datagram(p) => !p.IsReliable()
    case Pop => true
  }

  function Handle(r: Receiver, e: Event): Receiver {
    if !Acceptable(e) then r
    else match e
      case Arrival(_, p) => Receiver(IncomingAfter(r.incoming, r.ackId, p), AckIdAfter(r.ackId, p), r.consumed)
      case Datagram(p) => Receiver(IncomingAfter(r.incoming, r.ackId, p), AckIdAfter(r.ackId, p), r.consumed)
      case Pop =>
        var inc := r.incoming;
        if inc.ready == [] then r
        else Receiver(inc.(ready := inc.ready[1..]), r.ackId, r.consumed + [inc.ready[0]])
  }

  // ---------- what a perfect receiver would have done ----------

  /** The position up to which everything between `k` and `limit` is in `seen`. */
  function Contiguous(seen: set<nat>, k: nat, limit: nat): nat
    decreases limit - k
  {
    if k < limit && k + 1 in seen then Contiguous(seen, k + 1, limit) else k
  }

  lemma {:induction false} ContiguousIsLongest(seen: set<nat>, k: nat, limit: nat)
    requires k <= limit
    ensures var q := Contiguous(seen, k, limit);
            k <= q <= limit && (forall v :: k < v <= q ==> v in seen) && (q < limit ==> q + 1 !in seen)
    decreases limit - k
  {
    if k < limit && k + 1 in seen {
      ContiguousIsLongest(seen, k + 1, limit);
    }
  }

  /** The positions that have arrived, the furthest, and the longest contiguous prefix. */
  datatype Progress = Progress(seen: set<nat>, furthest: nat, prefix: nat)

  function Advance(g: Progress, e: Event): Progress {
    match e
    case Arrival(u, _) =>
      var seen, furthest := g.seen + {u}, Max(g.furthest, u);
      Progress(seen, furthest, Contiguous(seen, g.prefix, furthest))
    case _ => g
  }

  function ProgressOf(events: seq<Event>): Progress {
    if events == [] then Progress({}, 0, 0)
    else Advance(ProgressOf(events[..|events| - 1]), events[|events| - 1])
  }

  /** Not too old, not too far ahead, and less than a lap beyond the first missing position. */
  predicate Admissible(start: Id, g: Progress, u: nat) {
    1 <= u < g.prefix + LAP && (g.furthest > 0 ==> InTrackingRange(start, g.furthest, u))
  }

  /** If anything is missing, the first missing position is in the first lap. */
  predicate GapInFirstLap(g: Progress) {
    g.prefix == g.furthest || g.prefix < LAP
  }

  /** The application has got exactly the longest contiguous prefix. */
  ghost predicate Exact(stream: seq<Packet>, r: Receiver, g: Progress) {
    IsPrefixOf(Reliables(r.Enqueued()), stream) && |Reliables(r.Enqueued())| == g.prefix
  }

  // ---------- the receiver's state in terms of positions ----------

  ghost predicate WellFormed(g: Progress) {
    && (forall v :: v in g.seen ==> 1 <= v <= g.furthest)
    && (g.furthest > 0 ==> g.furthest in g.seen)
    && (forall v :: 1 <= v <= g.prefix ==> v in g.seen)
    && g.prefix <= g.furthest < g.prefix + LAP
    && (g.prefix < g.furthest ==> g.prefix + 1 !in g.seen)
  }

  /**
   The map as seen from the prefix `q`: looking one lap ahead, an id is present if its position has arrived or an
   earlier lap has used it, and a position that has arrived is answered by its own packet.
   */
  ghost predicate Ahead(start: Id, stream: seq<Packet>, received: map<Id, Packet>, seen: set<nat>, q: nat) {
    && (forall v :: q < v <= q + LAP ==> (IdAt(start, v) in received <==> v in seen || v > LAP))
    && (forall v :: q < v <= q + LAP && v in seen && v <= |stream| ==>
          received[IdAt(start, v)].Content() == stream[v - 1].Content())
  }

  ghost predicate OnTrack(start: Id, stream: seq<Packet>, r: Receiver, g: Progress) {
    && WellFormed(g) && g.furthest <= |stream|
    && Exact(stream, r, g)
    && r.incoming.sequence == IdAt(start, g.prefix)
    && r.ackId == (if g.furthest == 0 then INVALID_ID else IdAt(start, g.furthest))
    && AllKeptReliable(r.incoming.reliable)
    && Ahead(start, stream, r.incoming.reliable, g.seen, g.prefix)
  }

  ghost predicate AllKeptReliable(received: map<Id, Packet>) {
    forall id :: id in received ==> received[id].IsReliable()
  }

  lemma SameIdWithinLap(start: Id, u: nat, v: nat)
    requires 1 <= u && 1 <= v && u < v + LAP && v < u + LAP
    ensures IdAt(start, u) == IdAt(start, v) <==> u == v
  {
    SameIdIffWholeLaps(start, u, v);
  }

  lemma SameIdNextLap(start: Id, u: nat)
    requires 1 <= u
    ensures IdAt(start, u + LAP) == IdAt(start, u)
  {
    SameIdIffWholeLaps(start, u + LAP, u);
  }

  /** Storing a packet keeps the view from the same prefix. */
  lemma StoreAhead(start: Id, stream: seq<Packet>, received: map<Id, Packet>, g: Progress, u: nat, p: Packet)
    requires WellFormed(g) && Ahead(start, stream, received, g.seen, g.prefix)
    requires Admissible(start, g, u) && Fits(start, stream, Arrival(u, p))
    ensures Ahead(start, stream, received[p.id := p], g.seen + {u}, g.prefix)
  {
    var q := g.prefix;
    forall v | q < v <= q + LAP
      ensures IdAt(start, v) == p.id <==> v == (if u > q then u else u + LAP)
    {
      if u > q {
        SameIdWithinLap(start, u, v);
      } else {
        SameIdNextLap(start, u);
        SameIdWithinLap(start, u + LAP, v);
      }
    }
  }

  /** The loop never runs past the acknowledged position, and stops before it only at an id that is missing. */
  lemma ReleasedUpTo(start: Id, received: map<Id, Packet>, q: nat, limit: nat, run: seq<Packet>)
    requires 1 <= limit && q <= limit < q + LAP
    requires run == Released(received, IdAt(start, q), IdAt(start, limit))
    ensures q + |run| <= limit
    ensures q + |run| < limit ==> IdAt(start, q + |run| + 1) !in received
    ensures LastReleased(received, IdAt(start, q), IdAt(start, limit)) == IdAt(start, q + |run|)
    ensures forall v :: q < v <= q + |run| ==>
              IdAt(start, v) in received && run[v - q - 1] == received[IdAt(start, v)]
  {
    ReleasedPositions(received, start, q, IdAt(start, limit));
    if q + |run| < limit {
      DifferentIdBefore(start, q + |run|, limit);
    }
  }

  lemma DifferentIdBefore(start: Id, u: nat, v: nat)
    requires u < v < u + LAP
    ensures IdAt(start, u) != IdAt(start, v)
  {
    if u == 0 {
      IdAtStart(start, v);
    } else {
      SameIdWithinLap(start, u, v);
    }
  }

  /** How far the loop gets, compared with what has really arrived. */
  lemma EndVersusArrived(
    start: Id, stream: seq<Packet>, received: map<Id, Packet>, seen: set<nat>, q: nat, limit: nat, end: nat)
    requires q <= end <= limit < q + LAP
    requires Ahead(start, stream, received, seen, q)
    requires forall v :: q < v <= end ==> IdAt(start, v) in received
    requires end < limit ==> IdAt(start, end + 1) !in received
    ensures var arrived := Contiguous(seen, q, limit);
            arrived <= end && (end == arrived <==> arrived == limit || arrived < LAP)
  {
    var arrived := Contiguous(seen, q, limit);
    ContiguousIsLongest(seen, q, limit);
    if arrived < end {
      assert IdAt(start, arrived + 1) in received;
    }
  }

  /** The view from the prefix the loop has reached, if it has reached what has arrived. */
  lemma AheadMoves(
    start: Id, stream: seq<Packet>, received: map<Id, Packet>, seen: set<nat>, q: nat, q': nat, limit: nat)
    requires q <= q' <= limit < q + LAP
    requires Ahead(start, stream, received, seen, q)
    requires forall v :: v in seen ==> v <= limit
    requires forall v :: q < v <= q' ==> v in seen
    ensures Ahead(start, stream, received, seen, q')
  {
    forall v | q + LAP < v <= q' + LAP
      ensures IdAt(start, v) in received && v !in seen
    {
      SameIdNextLap(start, v - LAP);
      assert IdAt(start, v - LAP) in received;
    }
  }

  // ---------- one arrival ----------

  lemma TrackedAfter(start: Id, g: Progress, u: nat)
    requires Admissible(start, g, u)
    ensures var ackId := if g.furthest == 0 then INVALID_ID else IdAt(start, g.furthest);
            UpdatedAck(ackId, IdAt(start, u)) == IdAt(start, Max(g.furthest, u))
  {
    if g.furthest > 0 {
      UpdateTracksMaxIff(start, g.furthest, u);
    }
  }

  lemma WellFormedAfter(start: Id, g: Progress, u: nat, p: Packet)
    requires WellFormed(g) && Admissible(start, g, u)
    ensures WellFormed(Advance(g, Arrival(u, p)))
  {
    ContiguousIsLongest(g.seen + {u}, g.prefix, Max(g.furthest, u));
  }

  /** What the loop releases is right as far as the positions have arrived. */
  lemma ReleasedIsRight(
    start: Id, stream: seq<Packet>, received: map<Id, Packet>, seen: set<nat>, got: seq<Packet>, run: seq<Packet>)
    requires IsPrefixOf(got, stream) && |got| + |run| <= |stream| && |run| <= LAP
    requires Ahead(start, stream, received, seen, |got|)
    requires forall v :: |got| < v <= |got| + |run| ==>
               v in seen && IdAt(start, v) in received && run[v - |got| - 1] == received[IdAt(start, v)]
    ensures IsPrefixOf(got + run, stream)
  {
    forall i | 0 <= i < |run|
      ensures run[i].Content() == stream[|got| + i].Content()
    {
      var v := |got| + 1 + i;
      assert run[v - |got| - 1] == received[IdAt(start, v)];
    }
    PrefixAppend(got, run, stream);
  }

  /** What an arrival does to the receiver, in terms of the packets it releases. */
  lemma HandleArrival(r: Receiver, u: nat, p: Packet, received: map<Id, Packet>, latest: Id, run: seq<Packet>)
    requires p.IsReliable() && p.id != INVALID_ID && AllKeptReliable(r.incoming.reliable)
    requires received == r.incoming.reliable[p.id := p] && latest == UpdatedAck(r.ackId, p.id)
    requires latest != INVALID_ID && run == Released(received, r.incoming.sequence, latest)
    ensures var r' := Handle(r, Arrival(u, p));
            && r'.incoming.reliable == received && r'.ackId == latest
            && r'.incoming.sequence == LastReleased(received, r.incoming.sequence, latest)
            && Reliables(r'.Enqueued()) == Reliables(r.Enqueued()) + run
    ensures AllKeptReliable(received)
  {
    assert AllKeptReliable(received);
    assert Handle(r, Arrival(u, p)).Enqueued() == r.Enqueued() + run;
    ReliablesConcat(r.Enqueued(), run);
    ReleasedIsReliable(received, r.incoming.sequence, latest);
    AllReliable(run);
  }

  /** The loop has run over `run`, from position `q`: all of it present, and it ends where the positions say. */
  ghost predicate RunsFrom(start: Id, received: map<Id, Packet>, q: nat, run: seq<Packet>) {
    forall v :: q < v <= q + |run| ==> IdAt(start, v) in received && run[v - q - 1] == received[IdAt(start, v)]
  }

  /** How far an arrival takes the loop. */
  lemma HowFar(
    start: Id, stream: seq<Packet>, received: map<Id, Packet>, g: Progress, u: nat, p: Packet, run: seq<Packet>)
    requires Admissible(start, g, u) && WellFormed(g)
    requires Ahead(start, stream, received, g.seen + {u}, g.prefix)
    requires run == Released(received, IdAt(start, g.prefix), IdAt(start, Max(g.furthest, u)))
    ensures var g', end := Advance(g, Arrival(u, p)), g.prefix + |run|;
            && g'.prefix <= end <= g'.furthest && (end == g'.prefix <==> GapInFirstLap(g'))
            && RunsFrom(start, received, g.prefix, run)
            && LastReleased(received, IdAt(start, g.prefix), IdAt(start, g'.furthest)) == IdAt(start, end)
  {
    var limit := Max(g.furthest, u);
    ReleasedUpTo(start, received, g.prefix, limit, run);
    EndVersusArrived(start, stream, received, g.seen + {u}, g.prefix, limit, g.prefix + |run|);
  }

  /** A loop that ends with the prefix has released the right packets and leaves the right view. */
  lemma RightRun(
    start: Id, stream: seq<Packet>, received: map<Id, Packet>, g': Progress, got: seq<Packet>, run: seq<Packet>)
    requires WellFormed(g') && g'.furthest <= |stream| && g'.furthest < |got| + LAP
    requires g'.prefix == |got| + |run| && IsPrefixOf(got, stream)
    requires Ahead(start, stream, received, g'.seen, |got|) && RunsFrom(start, received, |got|, run)
    ensures IsPrefixOf(got + run, stream) && Ahead(start, stream, received, g'.seen, g'.prefix)
  {
    ReleasedIsRight(start, stream, received, g'.seen, got, run);
    AheadMoves(start, stream, received, g'.seen, |got|, g'.prefix, g'.furthest);
  }

  /** The map after an arrival, what the loop releases out of it from position `q`, and the new progress agree. */
  ghost predicate Consistent(
    start: Id, stream: seq<Packet>, received: map<Id, Packet>, q: nat, run: seq<Packet>, g': Progress)
  {
    && WellFormed(g') && 1 <= g'.furthest <= |stream| && g'.furthest < q + LAP
    && Ahead(start, stream, received, g'.seen, q)
    && RunsFrom(start, received, q, run)
    && (q + |run| == g'.prefix <==> GapInFirstLap(g'))
  }

  lemma ArrivalIsConsistent(
    start: Id, stream: seq<Packet>, kept: map<Id, Packet>, g: Progress, u: nat, p: Packet, run: seq<Packet>, last: Id)
    requires WellFormed(g) && g.furthest <= |stream| && Ahead(start, stream, kept, g.seen, g.prefix)
    requires Admissible(start, g, u) && Fits(start, stream, Arrival(u, p))
    requires run == Released(kept[p.id := p], IdAt(start, g.prefix), IdAt(start, Max(g.furthest, u)))
    requires last == LastReleased(kept[p.id := p], IdAt(start, g.prefix), IdAt(start, Max(g.furthest, u)))
    ensures Consistent(start, stream, kept[p.id := p], g.prefix, run, Advance(g, Arrival(u, p)))
    ensures last == IdAt(start, g.prefix + |run|)
  {
    WellFormedAfter(start, g, u, p);
    StoreAhead(start, stream, kept, g, u, p);
    HowFar(start, stream, kept[p.id := p], g, u, p, run);
  }

  /** `r'` has released `run` on top of what `r` had delivered, consistently with the new progress. */
  ghost predicate Settled(
    start: Id, stream: seq<Packet>, r: Receiver, k: nat, run: seq<Packet>, r': Receiver, g': Progress)
  {
    var got := Reliables(r.Enqueued());
    && |got| == k && IsPrefixOf(got, stream) && Consistent(start, stream, r'.incoming.reliable, k, run, g')
    && AllKeptReliable(r'.incoming.reliable) && r'.ackId == IdAt(start, g'.furthest)
    && r'.incoming.sequence == IdAt(start, k + |run|) && Reliables(r'.Enqueued()) == got + run
  }

  lemma Judge(start: Id, stream: seq<Packet>, r: Receiver, k: nat, run: seq<Packet>, r': Receiver, g': Progress)
    requires Settled(start, stream, r, k, run, r', g')
    ensures GapInFirstLap(g') ==> OnTrack(start, stream, r', g')
    ensures !GapInFirstLap(g') ==> !Exact(stream, r', g')
  {
    var got := Reliables(r.Enqueued());
    assert |got + run| == |got| + |run|;
    if GapInFirstLap(g') {
      RightRun(start, stream, r'.incoming.reliable, g', got, run);
    }
  }

  /** What an arrival in range releases, in terms of positions. */
  lemma ArrivalReleases(
    start: Id, r: Receiver, g: Progress, u: nat, p: Packet, received: map<Id, Packet>, run: seq<Packet>, last: Id,
    r': Receiver)
    requires Admissible(start, g, u) && p.IsReliable() && p.id == IdAt(start, u)
    requires r.incoming.sequence == IdAt(start, g.prefix) && AllKeptReliable(r.incoming.reliable)
    requires r.ackId == if g.furthest == 0 then INVALID_ID else IdAt(start, g.furthest)
    requires received == r.incoming.reliable[p.id := p] && r' == Handle(r, Arrival(u, p))
    requires run == Released(received, IdAt(start, g.prefix), IdAt(start, Max(g.furthest, u)))
    requires last == LastReleased(received, IdAt(start, g.prefix), IdAt(start, Max(g.furthest, u)))
    ensures && r'.incoming.reliable == received && AllKeptReliable(received)
            && r'.ackId == IdAt(start, Max(g.furthest, u)) && r'.incoming.sequence == last
            && Reliables(r'.Enqueued()) == Reliables(r.Enqueued()) + run
  {
    TrackedAfter(start, g, u);
    HandleArrival(r, u, p, received, IdAt(start, Max(g.furthest, u)), run);
  }

  lemma ArrivalOutcome(
    start: Id, stream: seq<Packet>, r: Receiver, g: Progress, u: nat, p: Packet, r': Receiver, g': Progress)
    returns (run: seq<Packet>)
    requires OnTrack(start, stream, r, g)
    requires Admissible(start, g, u) && Fits(start, stream, Arrival(u, p))
    requires r' == Handle(r, Arrival(u, p)) && g' == Advance(g, Arrival(u, p))
    ensures Settled(start, stream, r, g.prefix, run, r', g')
  {
    var received := r.incoming.reliable[p.id := p];
    run := Released(received, IdAt(start, g.prefix), IdAt(start, Max(g.furthest, u)));
    var last := LastReleased(received, IdAt(start, g.prefix), IdAt(start, Max(g.furthest, u)));
    ArrivalReleases(start, r, g, u, p, received, run, last, r');
    ArrivalIsConsistent(start, stream, r.incoming.reliable, g, u, p, run, last);
  }

  /**
   One arrival. The receiver stays exact exactly when nothing is missing afterwards or the first missing position
   is in the first lap; otherwise it releases a stale packet.
   */
  lemma ArrivalStep(
    start: Id, stream: seq<Packet>, r: Receiver, g: Progress, u: nat, p: Packet, r': Receiver, g': Progress)
    requires OnTrack(start, stream, r, g)
    requires Admissible(start, g, u) && Fits(start, stream, Arrival(u, p))
    requires r' == Handle(r, Arrival(u, p)) && g' == Advance(g, Arrival(u, p))
    ensures GapInFirstLap(g') ==> OnTrack(start, stream, r', g')
    ensures !GapInFirstLap(g') ==> !Exact(stream, r', g')
  {
    var run := ArrivalOutcome(start, stream, r, g, u, p, r', g');
    Judge(start, stream, r, g.prefix, run, r', g');
  }

  // ---------- runs of any length ----------

  ghost predicate AllFit(start: Id, stream: seq<Packet>, events: seq<Event>) {
    forall i :: 0 <= i < |events| ==> Fits(start, stream, events[i])
  }

  function After(start: Id, events: seq<Event>): Receiver {
    if events == [] then Receiver(Stream(map[], [], start), INVALID_ID, [])
    else Handle(After(start, events[..|events| - 1]), events[|events| - 1])
  }

  /** Every arrival was admissible at its time. */
  ghost predicate AllAdmissible(start: Id, events: seq<Event>) {
    events == [] ||
    (var front, e := events[..|events| - 1], events[|events| - 1];
     AllAdmissible(start, front) && (e.Arrival? ==> Admissible(start, ProgressOf(front), e.position)))
  }

  /** At no time was the first missing position beyond the first lap. */
  ghost predicate GapsInFirstLap(events: seq<Event>) {
    GapInFirstLap(ProgressOf(events)) && (events == [] || GapsInFirstLap(events[..|events| - 1]))
  }

  /** At all times the application had got exactly the longest contiguous prefix. */
  ghost predicate AlwaysExact(start: Id, stream: seq<Packet>, events: seq<Event>) {
    Exact(stream, After(start, events), ProgressOf(events)) &&
    (events == [] || AlwaysExact(start, stream, events[..|events| - 1]))
  }

  /** Datagrams and pops do not touch the reliable packets delivered. */
  lemma SameReliables(r: Receiver, e: Event)
    requires !e.Arrival? && Acceptable(e)
    ensures Reliables(Handle(r, e).Enqueued()) == Reliables(r.Enqueued())
  {
    var r' := Handle(r, e);
    if e.Datagram? {
      assert r'.Enqueued() == r.Enqueued() + [e.packet];
      ReliablesConcat(r.Enqueued(), [e.packet]);
      NoneReliable(e.packet);
    } else {
      assert r'.Enqueued() == r.Enqueued();
    }
  }

  lemma OtherEventStep(start: Id, stream: seq<Packet>, r: Receiver, g: Progress, e: Event)
    requires OnTrack(start, stream, r, g) && !e.Arrival? && Acceptable(e)
    ensures OnTrack(start, stream, Handle(r, e), g)
  {
    SameReliables(r, e);
  }

  lemma {:induction false} StaysOnTrack(start: Id, stream: seq<Packet>, events: seq<Event>)
    requires AllFit(start, stream, events) && AllAdmissible(start, events) && GapsInFirstLap(events)
    ensures OnTrack(start, stream, After(start, events), ProgressOf(events))
  {
    if events != [] {
      var front, e := events[..|events| - 1], events[|events| - 1];
      StaysOnTrack(start, stream, front);
      assert Fits(start, stream, e);
      if e.Arrival? {
        ArrivalStep(start, stream, After(start, front), ProgressOf(front), e.position, e.packet,
                    After(start, events), ProgressOf(events));
      } else {
        OtherEventStep(start, stream, After(start, front), ProgressOf(front), e);
      }
    }
  }

  /**
   Delivery over any number of laps. For every run of admissible arrivals, any duplicates, losses and reordering
   among them, interleaved with unreliable packets and pops: the application always has exactly the longest
   contiguous prefix if and only if at no time a position beyond the first lap was the first one missing.
   */
  lemma {:induction false} ExactIffGapsInFirstLap(start: Id, stream: seq<Packet>, events: seq<Event>)
    requires AllFit(start, stream, events) && AllAdmissible(start, events)
    ensures AlwaysExact(start, stream, events) <==> GapsInFirstLap(events)
  {
    if events != [] {
      var front, e := events[..|events| - 1], events[|events| - 1];
      ExactIffGapsInFirstLap(start, stream, front);
      if GapsInFirstLap(front) {
        StaysOnTrack(start, stream, front);
        assert Fits(start, stream, e);
        if e.Arrival? {
          ArrivalStep(start, stream, After(start, front), ProgressOf(front), e.position, e.packet,
                    After(start, events), ProgressOf(events));
        } else {
          OtherEventStep(start, stream, After(start, front), ProgressOf(front), e);
        }
      }
    }
  }

  /** First copies arrive in order and without loss; duplicates are at most 32767 positions old. */
  ghost predicate InOrderFirstCopies(events: seq<Event>) {
    events == [] ||
    (var front, e := events[..|events| - 1], events[|events| - 1];
     InOrderFirstCopies(front) &&
     (e.Arrival? ==>
        1 <= e.position <= ProgressOf(front).furthest + 1 && ProgressOf(front).furthest <= e.position + HALF_ID))
  }

  lemma {:induction false} InOrderHasNoGaps(start: Id, events: seq<Event>)
    requires InOrderFirstCopies(events)
    ensures AllAdmissible(start, events) && GapsInFirstLap(events)
    ensures ProgressOf(events).prefix == ProgressOf(events).furthest
  {
    if events != [] {
      var front, e := events[..|events| - 1], events[|events| - 1];
      InOrderHasNoGaps(start, front);
      if e.Arrival? {
        var g := ProgressOf(front);
        ContiguousIsLongest(g.seen + {e.position}, g.prefix, Max(g.furthest, e.position));
      }
    }
  }

  /**
   Unbounded runs: if first copies arrive in order without loss, then over any number of wraparounds, with
   duplicates up to 32767 positions old, every packet reaches the application exactly once, in order.
   */
  lemma InOrderRunsAreExact(start: Id, stream: seq<Packet>, events: seq<Event>)
    requires AllFit(start, stream, events) && InOrderFirstCopies(events)
    ensures AlwaysExact(start, stream, events)
    ensures |Reliables(After(start, events).Enqueued())| == ProgressOf(events).furthest
  {
    InOrderHasNoGaps(start, events);
    ExactIffGapsInFirstLap(start, stream, events);
  }

  /**
   How old a duplicate may be. When everything up to `g.furthest` has been delivered, a duplicate less than a lap
   old does no harm exactly when it is in the tracking range or the first lap is not complete: otherwise it turns
   the acknowledged id back and packets are delivered a second time.
   */
  lemma DuplicateHarmlessIff(start: Id, stream: seq<Packet>, r: Receiver, g: Progress, u: nat, p: Packet)
    requires OnTrack(start, stream, r, g) && g.prefix == g.furthest
    requires 1 <= u <= g.furthest < u + LAP && Fits(start, stream, Arrival(u, p))
    ensures Exact(stream, Handle(r, Arrival(u, p)), g) <==> InTrackingRange(start, g.furthest, u) || g.furthest < LAP
    ensures |Reliables(Handle(r, Arrival(u, p)).Enqueued())| >= g.furthest
  {
    var m, inc := g.furthest, r.incoming;
    var received, latest := inc.reliable[p.id := p], UpdatedAck(r.ackId, p.id);
    var run := Released(received, IdAt(start, m), latest);
    HandleArrival(r, u, p, received, latest, run);
    UpdateTracksMaxIff(start, m, u);
    SuccIdAt(start, m);
    NextIsPresentIff(start, stream, inc.reliable, g, u);
    NonEmptyIff(received, IdAt(start, m), latest, run);
    assert Reliables(r.Enqueued()) + [] == Reliables(r.Enqueued());
  }

  /** After `g.furthest` positions the next id is present, or is the duplicate's own, only from the next lap on. */
  lemma NextIsPresentIff(start: Id, stream: seq<Packet>, received: map<Id, Packet>, g: Progress, u: nat)
    requires WellFormed(g) && g.prefix == g.furthest && Ahead(start, stream, received, g.seen, g.prefix)
    requires 1 <= u <= g.furthest < u + LAP
    ensures IdAt(start, g.furthest + 1) in received || IdAt(start, g.furthest + 1) == IdAt(start, u) <==>
            g.furthest >= LAP
  {
    if g.furthest + 1 < u + LAP {
      SameIdWithinLap(start, g.furthest + 1, u);
    }
  }

  lemma NonEmptyIff(received: map<Id, Packet>, next: Id, latest: Id, run: seq<Packet>)
    requires latest != INVALID_ID && run == Released(received, next, latest)
    ensures run != [] <==> next != latest && Succ(next) in received
  {
  }
}
