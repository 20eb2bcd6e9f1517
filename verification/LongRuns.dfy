/**
 Delivery over any number of laps, for the whole system: threads interleave on both sides, the network duplicates,
 and as long as first copies are taken in in order, the application gets every packet exactly once.
 */
module LongRuns {
  import opened Ids
  import opened Packets
  import opened Connections
  import opened Endpoints
  import opened Invariants
  import opened Maximality
  import opened Network
  import opened Theorems
  import L = Laps

  function Positions(f: nat): (positions: set<nat>)
    ensures forall v :: v in positions <==> 1 <= v <= f
  {
    if f == 0 then {} else Positions(f - 1) + {f}
  }

  /** The progress of a receiver that has got exactly the first `f` positions. */
  function UpTo(f: nat): L.Progress {
    L.Progress(Positions(f), f, f)
  }

  /** The next position, or one at most 32767 positions old. */
  predicate InOrder(f: nat, u: nat) {
    1 <= u <= f + 1 && f <= u + HALF_ID
  }

  /** The receiver has got exactly the first `f` packets sent. */
  ghost predicate Steady(start: Id, sent: seq<Packet>, r: L.Receiver, f: nat) {
    L.OnTrack(start, sent, r, UpTo(f))
  }

  /** A copy of the packet at position `u` is being taken in. */
  ghost predicate Handling(start: Id, sent: seq<Packet>, r: L.Receiver, f: nat, u: nat, p: Packet) {
    Steady(start, sent, r, f) && InOrder(f, u) && L.Fits(start, sent, L.Arrival(u, p))
  }

  lemma InOrderIsAdmissible(start: Id, f: nat, u: nat)
    requires InOrder(f, u)
    ensures L.Admissible(start, UpTo(f), u)
  {
  }

  lemma UpToAdvances(f: nat, u: nat, p: Packet)
    requires InOrder(f, u)
    ensures L.Advance(UpTo(f), L.Arrival(u, p)) == UpTo(Max(f, u))
  {
    var seen := UpTo(f).seen + {u};
    assert seen == UpTo(Max(f, u)).seen;
    L.ContiguousIsLongest(seen, f, Max(f, u));
  }

  /** Taking in an arrival in order leaves the receiver steady. */
  lemma Handled(start: Id, sent: seq<Packet>, r: L.Receiver, f: nat, u: nat, p: Packet)
    requires Handling(start, sent, r, f, u, p)
    ensures Steady(start, sent, L.Handle(r, L.Arrival(u, p)), Max(f, u))
  {
    var g := UpTo(f);
    InOrderIsAdmissible(start, f, u);
    UpToAdvances(f, u, p);
    L.ArrivalStep(start, sent, r, g, u, p, L.Handle(r, L.Arrival(u, p)), L.Advance(g, L.Arrival(u, p)));
  }

  /** Which position an arrival in order has shows in its id. */
  lemma NextIffItsId(start: Id, f: nat, u: nat)
    requires InOrder(f, u)
    ensures Max(f, u) == if IdAt(start, u) == IdAt(start, f + 1) then f + 1 else f
  {
    IdsApart(start, u, f + 1);
  }

  lemma SteadyGrows(start: Id, sent: seq<Packet>, sent': seq<Packet>, r: L.Receiver, f: nat)
    requires Steady(start, sent, r, f) && sent <= sent'
    ensures Steady(start, sent', r, f)
  {
    forall i | 0 <= i < |Reliables(r.Enqueued())|
      ensures Reliables(r.Enqueued())[i].Content() == sent'[i].Content()
    {
      assert sent'[i] == sent[i];
    }
  }

  // ---------- the receiving endpoint, between and inside critical sections ----------

  /** The packet has been tracked by the acknowledged id and not yet stored; then `f` positions are reached. */
  ghost predicate Tracked(start: Id, sent: seq<Packet>, y: L.Receiver, f: nat, p: Packet) {
    exists r, f0, u ::
      Handling(start, sent, r, f0, u, p) && f == Max(f0, u) && y == r.(ackId := UpdatedAck(r.ackId, p.id))
  }

  /** A packet has been tracked and stored, and nothing has been released yet. */
  ghost predicate Filed(start: Id, sent: seq<Packet>, y: L.Receiver, f: nat) {
    exists r, f0, u, p ::
      Handling(start, sent, r, f0, u, p) && f == Max(f0, u) &&
      y == r.(ackId := UpdatedAck(r.ackId, p.id), incoming := Stored(r.incoming, p))
  }

  predicate TakingIn(thread: Thread) {
    thread.Store? || thread.Drain?
  }

  ghost predicate NobodyTakesIn(threads: seq<Thread>) {
    forall t :: 0 <= t < |threads| ==> !TakingIn(threads[t])
  }

  ghost predicate ThreadOnCourse(start: Id, sent: seq<Packet>, y: L.Receiver, f: nat, thread: Thread) {
    match thread
    case Store(p) => Tracked(start, sent, y, f, p)
    case Drain => Filed(start, sent, y, f)
    case PushUnreliable(p) => !p.IsReliable()
    case _ => true
  }

  /** `f` positions have been taken in, or are being taken in. */
  ghost predicate OnCourse(start: Id, sent: seq<Packet>, y: L.Receiver, threads: seq<Thread>, f: nat) {
    && (NobodyTakesIn(threads) ==> Steady(start, sent, y, f))
    && forall t :: 0 <= t < |threads| ==> ThreadOnCourse(start, sent, y, f, threads[t])
  }

  /** Only the owner of the incoming lock takes a packet in. */
  lemma OwnerAlone(lock: Lock, threads: seq<Thread>, t: nat)
    requires InLockAgrees(lock, threads) && t < |threads| && HoldsIn(threads[t])
    ensures forall i :: 0 <= i < |threads| && i != t ==> !HoldsIn(threads[i])
  {
  }

  lemma OthersOnCourse(
    start: Id, sent: seq<Packet>, y': L.Receiver, f': nat, threads: seq<Thread>, t: nat, next: Thread)
    requires t < |threads| && forall i :: 0 <= i < |threads| && i != t ==> !HoldsIn(threads[i])
    requires ThreadOnCourse(start, sent, y', f', next)
    requires !TakingIn(next) ==> Steady(start, sent, y', f')
    ensures OnCourse(start, sent, y', threads[t := next], f')
  {
    assert threads[t := next][t] == next;
  }

  /** The position that a step takes in, if it takes in any. */
  ghost predicate Takes(start: Id, sent: seq<Packet>, f: nat, thread: Thread, u: nat) {
    thread.TrackAck? && InOrder(f, u) && L.Fits(start, sent, L.Arrival(u, thread.packet))
  }

  /** How many positions are reached after a step. */
  function Reached(start: Id, f: nat, thread: Thread): nat {
    if thread.TrackAck? && thread.packet.id == IdAt(start, f + 1) then f + 1 else f
  }

  // ---------- one packet taken in: tracked, stored, released ----------

  lemma SteadyToTracked(start: Id, sent: seq<Packet>, y: L.Receiver, f: nat, u: nat, p: Packet)
    requires Handling(start, sent, y, f, u, p)
    ensures Tracked(start, sent, y.(ackId := UpdatedAck(y.ackId, p.id)), Max(f, u), p)
  {
  }

  lemma TrackedToFiled(start: Id, sent: seq<Packet>, y: L.Receiver, f: nat, p: Packet)
    requires Tracked(start, sent, y, f, p)
    ensures Filed(start, sent, y.(incoming := Stored(y.incoming, p)), f)
  {
    var r, f0, u :|
      Handling(start, sent, r, f0, u, p) && f == Max(f0, u) && y == r.(ackId := UpdatedAck(r.ackId, p.id));
  }

  /** Tracking, storing and releasing are together what one arrival does. */
  lemma ThreeStepsAreOne(r: L.Receiver, u: nat, p: Packet, y: L.Receiver)
    requires p.IsReliable() && p.id != INVALID_ID
    requires y == r.(ackId := UpdatedAck(r.ackId, p.id), incoming := Stored(r.incoming, p))
    ensures y.ackId != INVALID_ID
    ensures L.Handle(r, L.Arrival(u, p)) == y.(incoming := Drained(y.incoming, y.ackId))
  {
  }

  lemma ArrivalHasId(start: Id, sent: seq<Packet>, u: nat, p: Packet)
    requires L.Fits(start, sent, L.Arrival(u, p))
    ensures p.IsReliable() && p.id != INVALID_ID
  {
    SuccIdAt(start, u - 1);
  }

  lemma FiledToSteady(start: Id, sent: seq<Packet>, y: L.Receiver, f: nat)
    requires Filed(start, sent, y, f)
    ensures y.ackId != INVALID_ID && Steady(start, sent, y.(incoming := Drained(y.incoming, y.ackId)), f)
  {
    var r, f0, u, p :|
      Handling(start, sent, r, f0, u, p) && f == Max(f0, u) &&
      y == r.(ackId := UpdatedAck(r.ackId, p.id), incoming := Stored(r.incoming, p));
    ArrivalHasId(start, sent, u, p);
    ThreeStepsAreOne(r, u, p, y);
    Handled(start, sent, r, f0, u, p);
  }

  // ---------- every step of the receiving side ----------

  /** What a step does to the receiver. */
  function NextReceiver(y: L.Receiver, thread: Thread): L.Receiver
    requires thread.Drain? ==> y.ackId != INVALID_ID
  {
    L.Receiver(NextIncoming(y.incoming, y.ackId, thread), NextAckId(y.ackId, thread),
               y.consumed + ConsumesNow(y.incoming, thread))
  }

  lemma ReceiverContinues(e: Endpoint, t: nat)
    requires Enabled(e, t)
    ensures L.ReceiverOf(Continue(e, t)) == NextReceiver(L.ReceiverOf(e), e.threads[t])
    ensures Continue(e, t).threads == e.threads[t := NextThread(e.conn, e.threads[t])]
  {
  }

  /** The owner of the incoming lock moves, and nobody has been taking a packet in. */
  lemma OwnerStarts(start: Id, sent: seq<Packet>, y: L.Receiver, threads: seq<Thread>, t: nat, f: nat)
    requires OnCourse(start, sent, y, threads, f) && t < |threads| && !TakingIn(threads[t])
    requires forall i :: 0 <= i < |threads| && i != t ==> !HoldsIn(threads[i])
    ensures Steady(start, sent, y, f)
  {
    assert NobodyTakesIn(threads);
  }

  lemma TrackMoves(start: Id, sent: seq<Packet>, y: L.Receiver, f: nat, thread: Thread)
    requires Steady(start, sent, y, f) && thread.TrackAck? && exists u :: Takes(start, sent, f, thread, u)
    ensures Tracked(start, sent, NextReceiver(y, thread), Reached(start, f, thread), thread.packet)
  {
    var u :| Takes(start, sent, f, thread, u);
    NextIffItsId(start, f, u);
    SteadyToTracked(start, sent, y, f, u, thread.packet);
    assert y.consumed + [] == y.consumed;
  }

  /** Unreliable packets and the application. */
  lemma QueueMoves(start: Id, sent: seq<Packet>, y: L.Receiver, f: nat, thread: Thread)
    requires Steady(start, sent, y, f) && ThreadOnCourse(start, sent, y, f, thread)
    requires thread.PushUnreliable? || thread.PopInLocked?
    ensures Steady(start, sent, NextReceiver(y, thread), f)
  {
    var event := if thread.PushUnreliable? then L.Datagram(thread.packet) else L.Pop;
    assert y.consumed + [] == y.consumed;
    assert NextReceiver(y, thread) == L.Handle(y, event);
    L.OtherEventStep(start, sent, y, UpTo(f), event);
  }

  /** What the owner of the incoming lock does to the receiver. */
  lemma OwnerMoves(
    start: Id, sent: seq<Packet>, y: L.Receiver, threads: seq<Thread>, t: nat, f: nat, next: Thread)
    requires OnCourse(start, sent, y, threads, f) && t < |threads| && TouchesIncoming(threads[t])
    requires forall i :: 0 <= i < |threads| && i != t ==> !HoldsIn(threads[i])
    requires threads[t].TrackAck? ==> exists u :: Takes(start, sent, f, threads[t], u)
    requires next == match threads[t] case TrackAck(p) => Store(p) case Store(_) => Drain case _ => Idle
    ensures threads[t].Drain? ==> y.ackId != INVALID_ID
    ensures var y', f' := NextReceiver(y, threads[t]), Reached(start, f, threads[t]);
            ThreadOnCourse(start, sent, y', f', next) && (!TakingIn(next) ==> Steady(start, sent, y', f'))
  {
    var thread := threads[t];
    assert ThreadOnCourse(start, sent, y, f, thread);
    assert y.consumed + [] == y.consumed;
    if thread.Store? {
      TrackedToFiled(start, sent, y, f, thread.packet);
    } else if thread.Drain? {
      FiledToSteady(start, sent, y, f);
    } else {
      OwnerStarts(start, sent, y, threads, t, f);
      if thread.TrackAck? {
        TrackMoves(start, sent, y, f, thread);
      } else {
        QueueMoves(start, sent, y, f, thread);
      }
    }
  }

  predicate TouchesIncoming(thread: Thread) {
    thread.TrackAck? || TakingIn(thread) || thread.PushUnreliable? || thread.PopInLocked?
  }

  /** A thread that does not touch the incoming stream goes on, or starts a call. */
  lemma ElsewhereOnCourse(
    start: Id, sent: seq<Packet>, y: L.Receiver, f: nat, threads: seq<Thread>, t: nat, next: Thread)
    requires OnCourse(start, sent, y, threads, f) && t < |threads|
    requires !TakingIn(threads[t]) && !TakingIn(next) && (next.PushUnreliable? ==> !next.packet.IsReliable())
    ensures OnCourse(start, sent, y, threads[t := next], f)
  {
    if NobodyTakesIn(threads[t := next]) {
      forall i | 0 <= i < |threads|
        ensures !TakingIn(threads[i])
      {
        assert i != t ==> threads[t := next][i] == threads[i];
      }
    }
  }

  lemma NothingHappens(y: L.Receiver, c: Conn, thread: Thread)
    requires !TouchesIncoming(thread)
    ensures NextReceiver(y, thread) == y && !TakingIn(NextThread(c, thread))
    ensures NextThread(c, thread).PushUnreliable? ==> !NextThread(c, thread).packet.IsReliable()
  {
  }

  /** Every step of every thread of the receiving side keeps it on course, if what it takes in is in order. */
  lemma CourseStep(start: Id, sent: seq<Packet>, e: Endpoint, t: nat, f: nat)
    requires OnCourse(start, sent, L.ReceiverOf(e), e.threads, f) && InLockAgrees(e.inLock, e.threads)
    requires Enabled(e, t) && (e.threads[t].TrackAck? ==> exists u :: Takes(start, sent, f, e.threads[t], u))
    ensures OnCourse(start, sent, L.ReceiverOf(Continue(e, t)), Continue(e, t).threads, Reached(start, f, e.threads[t]))
  {
    var y, thread, next := L.ReceiverOf(e), e.threads[t], NextThread(e.conn, e.threads[t]);
    ReceiverContinues(e, t);
    if TouchesIncoming(thread) {
      OwnerAlone(e.inLock, e.threads, t);
      OwnerMoves(start, sent, y, e.threads, t, f, next);
      OthersOnCourse(start, sent, NextReceiver(y, thread), Reached(start, f, thread), e.threads, t, next);
    } else {
      NothingHappens(y, e.conn, thread);
      ElsewhereOnCourse(start, sent, y, f, e.threads, t, next);
    }
  }

  // ---------- runs ----------

  /** The thread of the receiving side that an action moves, or an idle one. */
  function Moving(s: System, a: Action, side: Side): Thread {
    var y := To(s, side);
    if a.side != side && a.Step? && Enabled(y, a.thread) then y.threads[a.thread] else Idle
  }

  /** How many first copies have been taken in. */
  function Arrived(s: System, start: Id, actions: seq<Action>, side: Side): nat {
    if actions == [] then 0
    else
      var front, a := actions[..|actions| - 1], actions[|actions| - 1];
      Reached(start, Arrived(s, start, front, side), Moving(Run(s, front), a, side))
  }

  /**
   First copies are taken in in order and without loss; any other reliable packet taken in is a copy of one at most
   32767 positions old. A packet is taken in when it is compared with the acknowledged id.
   */
  ghost predicate ArriveInOrder(s: System, start: Id, actions: seq<Action>, side: Side) {
    actions == [] ||
    (var front, a := actions[..|actions| - 1], actions[|actions| - 1];
     var before := Run(s, front);
     && ArriveInOrder(s, start, front, side)
     && (Moving(before, a, side).TrackAck? ==>
           exists u :: Takes(start, From(before, side).scheduled, Arrived(s, start, front, side),
                             Moving(before, a, side), u)))
  }

  lemma HandlingGrows(
    start: Id, sent: seq<Packet>, sent': seq<Packet>, r: L.Receiver, f: nat, u: nat, p: Packet)
    requires Handling(start, sent, r, f, u, p) && sent <= sent'
    ensures Handling(start, sent', r, f, u, p)
  {
    SteadyGrows(start, sent, sent', r, f);
    assert sent'[u - 1] == sent[u - 1];
  }

  lemma TrackedGrows(start: Id, sent: seq<Packet>, sent': seq<Packet>, y: L.Receiver, f: nat, p: Packet)
    requires Tracked(start, sent, y, f, p) && sent <= sent'
    ensures Tracked(start, sent', y, f, p)
  {
    var r, f0, u :|
      Handling(start, sent, r, f0, u, p) && f == Max(f0, u) && y == r.(ackId := UpdatedAck(r.ackId, p.id));
    HandlingGrows(start, sent, sent', r, f0, u, p);
  }

  lemma FiledGrows(start: Id, sent: seq<Packet>, sent': seq<Packet>, y: L.Receiver, f: nat)
    requires Filed(start, sent, y, f) && sent <= sent'
    ensures Filed(start, sent', y, f)
  {
    var r, f0, u, p :|
      Handling(start, sent, r, f0, u, p) && f == Max(f0, u) &&
      y == r.(ackId := UpdatedAck(r.ackId, p.id), incoming := Stored(r.incoming, p));
    HandlingGrows(start, sent, sent', r, f0, u, p);
  }

  /** The sender schedules more. */
  lemma CourseGrows(
    start: Id, sent: seq<Packet>, sent': seq<Packet>, y: L.Receiver, threads: seq<Thread>, f: nat)
    requires OnCourse(start, sent, y, threads, f) && sent <= sent'
    ensures OnCourse(start, sent', y, threads, f)
  {
    if NobodyTakesIn(threads) {
      SteadyGrows(start, sent, sent', y, f);
    }
    forall t | 0 <= t < |threads|
      ensures ThreadOnCourse(start, sent', y, f, threads[t])
    {
      assert ThreadOnCourse(start, sent, y, f, threads[t]);
      match threads[t]
      case Store(p) => TrackedGrows(start, sent, sent', y, f, p);
      case Drain => FiledGrows(start, sent, sent', y, f);
      case _ =>
    }
  }

  lemma InitOnCourse(start: Id, outStart: Id, y: Endpoint)
    requires InitEndpoint(y, outStart, start)
    ensures OnCourse(start, [], L.ReceiverOf(y), y.threads, 0)
  {
    assert Reliables([]) == [];
  }

  lemma ReceiverOnCourse(start: Id, sent: seq<Packet>, y: Endpoint, peer: Endpoint, a: Action, f: nat)
    requires OnCourse(start, sent, L.ReceiverOf(y), y.threads, f) && InLockAgrees(y.inLock, y.threads)
    requires var moving := if a.Step? && Enabled(y, a.thread) then y.threads[a.thread] else Idle;
             moving.TrackAck? ==> exists u :: Takes(start, sent, f, moving, u)
    ensures var y' := EndpointAfter(y, peer, a);
            var moving := if a.Step? && Enabled(y, a.thread) then y.threads[a.thread] else Idle;
            OnCourse(start, sent, L.ReceiverOf(y'), y'.threads, Reached(start, f, moving))
  {
    match a
    case Begin(_, t, call) =>
      if CanBegin(y, peer, t, call) {
        ElsewhereOnCourse(start, sent, L.ReceiverOf(y), f, y.threads, t, Start(call));
      }
    case Step(_, t) =>
      if Enabled(y, t) {
        CourseStep(start, sent, y, t, f);
      }
  }

  lemma ReachableLock(s: System, leftStart: Id, rightStart: Id, actions: seq<Action>, side: Side)
    requires Init(s, leftStart, rightStart)
    ensures InLockAgrees(To(Run(s, actions), side).inLock, To(Run(s, actions), side).threads)
  {
    UnconditionalAlways(s, leftStart, rightStart, actions);
  }

  lemma {:induction false} AlwaysOnCourse(
    s: System, leftStart: Id, rightStart: Id, start: Id, actions: seq<Action>, side: Side)
    requires Init(s, leftStart, rightStart) && start == StartOf(leftStart, rightStart, side)
    requires ArriveInOrder(s, start, actions, side)
    ensures var x, y := From(Run(s, actions), side), To(Run(s, actions), side);
            OnCourse(start, x.scheduled, L.ReceiverOf(y), y.threads, Arrived(s, start, actions, side))
  {
    if actions == [] {
      InitOnCourse(start, StartOf(leftStart, rightStart, Opposite(side)), To(s, side));
    } else {
      var front, a := actions[..|actions| - 1], actions[|actions| - 1];
      var before, f := Run(s, front), Arrived(s, start, front, side);
      var x, y := From(before, side), To(before, side);
      AlwaysOnCourse(s, leftStart, rightStart, start, front, side);
      if a.side == side {
        ScheduledGrows(x, y, a);
        CourseGrows(start, x.scheduled, EndpointAfter(x, y, a).scheduled, L.ReceiverOf(y), y.threads, f);
      } else {
        ReachableLock(s, leftStart, rightStart, front, side);
        ReceiverOnCourse(start, x.scheduled, y, x, a, f);
      }
    }
  }

  lemma SteadyDelivers(start: Id, sent: seq<Packet>, r: L.Receiver, f: nat)
    requires Steady(start, sent, r, f)
    ensures IsPrefixOf(Reliables(r.Enqueued()), sent) && |Reliables(r.Enqueued())| == f
  {
  }

  /** While a packet is being taken in the application has got what it had before. */
  ghost predicate OneBehind(sent: seq<Packet>, got: seq<Packet>, f: nat) {
    IsPrefixOf(got, sent) && |got| <= f <= |got| + 1
  }

  lemma TrackedDelivers(start: Id, sent: seq<Packet>, y: L.Receiver, f: nat, p: Packet)
    requires Tracked(start, sent, y, f, p)
    ensures OneBehind(sent, Reliables(y.Enqueued()), f)
  {
    var r, f0, u :|
      Handling(start, sent, r, f0, u, p) && f == Max(f0, u) && y == r.(ackId := UpdatedAck(r.ackId, p.id));
    SteadyDelivers(start, sent, r, f0);
    assert y.Enqueued() == r.Enqueued();
  }

  lemma FiledDelivers(start: Id, sent: seq<Packet>, y: L.Receiver, f: nat)
    requires Filed(start, sent, y, f)
    ensures OneBehind(sent, Reliables(y.Enqueued()), f)
  {
    var r, f0, u, p :|
      Handling(start, sent, r, f0, u, p) && f == Max(f0, u) &&
      y == r.(ackId := UpdatedAck(r.ackId, p.id), incoming := Stored(r.incoming, p));
    SteadyDelivers(start, sent, r, f0);
    assert y.Enqueued() == r.Enqueued();
  }

  /** On course the application has got a prefix, all of it unless a packet is being taken in. */
  lemma CourseDelivers(start: Id, sent: seq<Packet>, y: L.Receiver, threads: seq<Thread>, f: nat)
    requires OnCourse(start, sent, y, threads, f)
    ensures OneBehind(sent, Reliables(y.Enqueued()), f)
    ensures NobodyTakesIn(threads) ==> |Reliables(y.Enqueued())| == f
  {
    if NobodyTakesIn(threads) {
      SteadyDelivers(start, sent, y, f);
    } else {
      var t :| 0 <= t < |threads| && TakingIn(threads[t]);
      assert ThreadOnCourse(start, sent, y, f, threads[t]);
      if threads[t].Store? {
        TrackedDelivers(start, sent, y, f, threads[t].packet);
      } else {
        FiledDelivers(start, sent, y, f);
      }
    }
  }

  /** `y` has got a prefix of what `x` scheduled: all that has arrived, unless a packet is just being taken in. */
  ghost predicate Delivering(x: Endpoint, y: Endpoint, arrived: nat) {
    && OneBehind(x.scheduled, Reliables(y.Enqueued()), arrived)
    && (y.inLock.Shared? ==> |Reliables(y.Enqueued())| == arrived)
  }

  lemma QuietCourseDelivers(start: Id, x: Endpoint, y: Endpoint, f: nat)
    requires OnCourse(start, x.scheduled, L.ReceiverOf(y), y.threads, f) && InLockAgrees(y.inLock, y.threads)
    ensures Delivering(x, y, f)
  {
    CourseDelivers(start, x.scheduled, L.ReceiverOf(y), y.threads, f);
    assert L.ReceiverOf(y).Enqueued() == y.Enqueued();
    assert y.inLock.Shared? ==> NobodyTakesIn(y.threads);
  }

  /**
   Runs of any length, over any number of wraparounds, under any interleaving: if first copies are taken in in order
   without loss and duplicates are at most 32767 positions old, what the application gets is at every moment a
   prefix of what the peer scheduled, exactly once and in order; and whenever no `Received` is in its critical
   section, it is exactly what has arrived.
   */
  lemma InOrderRunsDeliver(
    s: System, leftStart: Id, rightStart: Id, start: Id, actions: seq<Action>, side: Side)
    requires Init(s, leftStart, rightStart) && start == StartOf(leftStart, rightStart, side)
    requires ArriveInOrder(s, start, actions, side)
    ensures Delivering(From(Run(s, actions), side), To(Run(s, actions), side), Arrived(s, start, actions, side))
  {
    AlwaysOnCourse(s, leftStart, rightStart, start, actions, side);
    ReachableLock(s, leftStart, rightStart, actions, side);
    QuietCourseDelivers(start, From(Run(s, actions), side), To(Run(s, actions), side),
                        Arrived(s, start, actions, side));
  }
}
