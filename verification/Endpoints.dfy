/**
 An endpoint shared by any number of threads. Each thread is inside at most one call of the connection, and
 every lock acquisition, every critical section and the load of the acknowledged id is a step of its own:
 `PopReadyOutgoingPacket` is not atomic, and `Received` takes the outgoing lock once for every id it visits
 while it holds the incoming lock.
 */
module Endpoints {
  import opened Ids
  import opened Packets
  import opened Connections

  type Bit = n: nat | n < ACK_COUNT
  type Visit = n: nat | n <= ACK_COUNT

  /** Where a thread is: `...Wait` is about to take a lock, `...Locked` holds it. */
  datatype Thread =
    | Idle
      // Schedule
    | ScheduleWait(packet: Packet)
    | ScheduleLocked(packet: Packet)
      // PopReadyOutgoingPacket
    | PopOutWait
    | PopOutLocked
    | LoadAck(packet: Packet)
    | LookWait(packet: Packet, bit: Bit)
    | LookLocked(packet: Packet, bit: Bit)
      // Received
    | ReceiveWait(packet: Packet)
    | AckWait(packet: Packet, visit: Visit)
    | AckLocked(packet: Packet, visit: Visit)
    | TrackAck(packet: Packet)
    | Store(packet: Packet)
    | Drain
    | PushUnreliable(packet: Packet)
      // PopReadyIncomingPacket
    | PopInWait
    | PopInLocked

  /** A std::shared_mutex. */
  datatype Lock = Exclusive(owner: nat) | Shared(owners: set<nat>)

  const FREE: Lock := Shared({})

  /**
   The connection, its two locks, its threads, and the history the properties speak of: the reliable packets
   scheduled (with their ids), all packets popped for sending, all packets that left with an acknowledgement,
   all packets the application has consumed, and the unreliable packets received.
   */
  datatype Endpoint = Endpoint(
    conn: Conn, outLock: Lock, inLock: Lock, threads: seq<Thread>,
    scheduled: seq<Packet>, popped: seq<Packet>, departed: seq<Packet>, consumed: seq<Packet>, arrivals: seq<Packet>)
  {
    /** Everything ever made ready for sending, in order. */
    function Pushed(): seq<Packet> {
      popped + conn.outgoing.ready
    }

    /** Everything ever made ready for the application, in order. */
    function Enqueued(): seq<Packet> {
      consumed + conn.incoming.ready
    }
  }

  datatype Call =
    | CallSchedule(packet: Packet)
    | CallPopOutgoing
    | CallReceive(packet: Packet)
    | CallPopIncoming

  function Start(call: Call): Thread {
    match call
    case CallSchedule(p) => ScheduleWait(p)
    case CallPopOutgoing => PopOutWait
    case CallReceive(p) => ReceiveWait(p)
    case CallPopIncoming => PopInWait
  }

  /** Whether thread `t` is inside a call and its next step is not blocked by a lock or a failed assertion. */
  predicate Enabled(e: Endpoint, t: nat) {
    t < |e.threads| &&
    match e.threads[t]
    case Idle => false
    case ScheduleWait(_) => e.outLock == FREE
    case PopOutWait => e.outLock == FREE
    case AckWait(_, _) => e.outLock == FREE
    case LookWait(_, _) => e.inLock.Shared?
    case LookLocked(_, _) => e.inLock.Shared?
    case ReceiveWait(_) => e.inLock == FREE
    case PopInWait => e.inLock == FREE
    case TrackAck(p) => p.id != INVALID_ID
    case Drain => e.conn.ackId != INVALID_ID
    case _ => true
  }

  // ---------- the effect of a step, component by component ----------

  /** Where a thread goes next. */
  function NextThread(c: Conn, thread: Thread): Thread {
    match thread
    case Idle => Idle
    case ScheduleWait(p) => ScheduleLocked(p)
    case ScheduleLocked(_) => Idle
    case PopOutWait => PopOutLocked
    case PopOutLocked => if c.outgoing.ready == [] then Idle else LoadAck(c.outgoing.ready[0])
    case LoadAck(p) => LookWait(p.(ackId := c.ackId, ackBitset := ZERO_WORD), 0)
    case LookWait(p, i) => LookLocked(p, i)
    case LookLocked(p, i) => if i + 1 < ACK_COUNT then LookWait(Marked(p, i, c.incoming.reliable), i + 1) else Idle
    case ReceiveWait(p) => AckWait(p, 0)
    case AckWait(p, n) => AckLocked(p, n)
    case AckLocked(p, n) =>
      if n < ACK_COUNT then AckWait(p, n + 1) else if p.IsReliable() then TrackAck(p) else PushUnreliable(p)
    case TrackAck(p) => Store(p)
    case Store(_) => Drain
    case Drain => Idle
    case PushUnreliable(_) => Idle
    case PopInWait => PopInLocked
    case PopInLocked => Idle
  }

  function NextOutgoing(out: Stream, thread: Thread): Stream {
    match thread
    case ScheduleLocked(p) => Scheduled(out, p)
    case PopOutLocked => if out.ready == [] then out else out.(ready := out.ready[1..])
    case AckLocked(p, n) => AckVisit(out, p, n)
    case _ => out
  }

  function NextIncoming(inc: Stream, ackId: Id, thread: Thread): Stream
    requires thread.Drain? ==> ackId != INVALID_ID
  {
    match thread
    case Store(p) => Stored(inc, p)
    case Drain => Drained(inc, ackId)
    case PushUnreliable(p) => inc.(ready := inc.ready + [p])
    case PopInLocked => if inc.ready == [] then inc else inc.(ready := inc.ready[1..])
    case _ => inc
  }

  function NextAckId(ackId: Id, thread: Thread): Id {
    match thread
    case TrackAck(p) => UpdatedAck(ackId, p.id)
    case _ => ackId
  }

  function NextOutLock(lock: Lock, t: nat, thread: Thread): Lock {
    match thread
    case ScheduleWait(_) => Exclusive(t)
    case PopOutWait => Exclusive(t)
    case AckWait(_, _) => Exclusive(t)
    case ScheduleLocked(_) => FREE
    case PopOutLocked => FREE
    case AckLocked(_, _) => FREE
    case _ => lock
  }

  function NextInLock(lock: Lock, t: nat, thread: Thread): Lock
    requires thread.LookWait? || thread.LookLocked? ==> lock.Shared?
  {
    match thread
    case LookWait(_, _) => Shared(lock.owners + {t})
    case LookLocked(_, _) => Shared(lock.owners - {t})
    case ReceiveWait(_) => Exclusive(t)
    case PopInWait => Exclusive(t)
    case Drain => FREE
    case PushUnreliable(_) => FREE
    case PopInLocked => FREE
    case _ => lock
  }

  /** The reliable packet, with its id, that a step schedules. */
  function SchedulesNow(out: Stream, thread: Thread): seq<Packet> {
    if thread.ScheduleLocked? && thread.packet.IsReliable() then [thread.packet.(id := Succ(out.sequence))] else []
  }

  function PopsNow(out: Stream, thread: Thread): seq<Packet> {
    if thread.PopOutLocked? && out.ready != [] then [out.ready[0]] else []
  }

  /** The packet, with its acknowledgement complete, that a step hands to the socket. */
  function DepartsNow(inc: Stream, thread: Thread): seq<Packet> {
    if thread.LookLocked? && thread.bit + 1 == ACK_COUNT then [Marked(thread.packet, thread.bit, inc.reliable)] else []
  }

  function ConsumesNow(inc: Stream, thread: Thread): seq<Packet> {
    if thread.PopInLocked? && inc.ready != [] then [inc.ready[0]] else []
  }

  function ArrivesNow(thread: Thread): seq<Packet> {
    if thread.PushUnreliable? then [thread.packet] else []
  }

  /** The next step of thread `t`. */
  function Continue(e: Endpoint, t: nat): Endpoint
    requires Enabled(e, t)
  {
    var thread, c := e.threads[t], e.conn;
    Endpoint(
      Conn(NextOutgoing(c.outgoing, thread), NextIncoming(c.incoming, c.ackId, thread), NextAckId(c.ackId, thread)),
      NextOutLock(e.outLock, t, thread),
      NextInLock(e.inLock, t, thread),
      e.threads[t := NextThread(c, thread)],
      e.scheduled + SchedulesNow(c.outgoing, thread),
      e.popped + PopsNow(c.outgoing, thread),
      e.departed + DepartsNow(c.incoming, thread),
      e.consumed + ConsumesNow(c.incoming, thread),
      e.arrivals + ArrivesNow(thread))
  }

  // ---------- mutual exclusion ----------

  predicate HoldsOut(thread: Thread) {
    thread.ScheduleLocked? || thread.PopOutLocked? || thread.AckLocked?
  }

  predicate HoldsIn(thread: Thread) {
    thread.AckWait? || thread.AckLocked? || thread.TrackAck? || thread.Store? || thread.Drain? ||
    thread.PushUnreliable? || thread.PopInLocked?
  }

  predicate ReadsIn(thread: Thread) {
    thread.LookLocked?
  }

  /** The outgoing lock is held by exactly the thread inside a critical section of the outgoing stream. */
  ghost predicate OutLockAgrees(lock: Lock, threads: seq<Thread>) {
    && (lock.Exclusive? ==> lock.owner < |threads|)
    && (lock.Shared? ==> lock == FREE)
    && forall t :: 0 <= t < |threads| ==> (HoldsOut(threads[t]) <==> lock == Exclusive(t))
  }

  /** The incoming lock is held by one exclusive owner or by exactly the threads inside a lookup. */
  ghost predicate InLockAgrees(lock: Lock, threads: seq<Thread>) {
    && (lock.Exclusive? ==> lock.owner < |threads|)
    && (lock.Shared? ==> forall t :: t in lock.owners ==> t < |threads|)
    && forall t :: 0 <= t < |threads| ==>
         && (HoldsIn(threads[t]) <==> lock == Exclusive(t))
         && (ReadsIn(threads[t]) <==> lock.Shared? && t in lock.owners)
  }

  ghost predicate LocksAgree(e: Endpoint) {
    OutLockAgrees(e.outLock, e.threads) && InLockAgrees(e.inLock, e.threads)
  }

  lemma OutLockStep(lock: Lock, threads: seq<Thread>, t: nat, c: Conn)
    requires t < |threads| && OutLockAgrees(lock, threads)
    requires threads[t].ScheduleWait? || threads[t].PopOutWait? || threads[t].AckWait? ==> lock == FREE
    ensures OutLockAgrees(NextOutLock(lock, t, threads[t]), threads[t := NextThread(c, threads[t])])
  {
  }

  lemma InLockStep(lock: Lock, threads: seq<Thread>, t: nat, c: Conn)
    requires t < |threads| && InLockAgrees(lock, threads)
    requires threads[t].LookWait? || threads[t].LookLocked? ==> lock.Shared?
    requires threads[t].ReceiveWait? || threads[t].PopInWait? ==> lock == FREE
    ensures InLockAgrees(NextInLock(lock, t, threads[t]), threads[t := NextThread(c, threads[t])])
  {
  }

  lemma LocksStep(e: Endpoint, t: nat)
    requires LocksAgree(e) && Enabled(e, t)
    ensures LocksAgree(Continue(e, t))
  {
    OutLockStep(e.outLock, e.threads, t, e.conn);
    InLockStep(e.inLock, e.threads, t, e.conn);
  }

  // ---------- progress ----------

  /**
   The assertion at the head of the reliable branch of `Received` holds, and the releasing loop has a valid goal.
   */
  predicate AssertionsHold(e: Endpoint) {
    forall t :: 0 <= t < |e.threads| ==>
      && (e.threads[t].TrackAck? ==> e.threads[t].packet.id != INVALID_ID)
      && (e.threads[t].Drain? ==> e.conn.ackId != INVALID_ID)
  }

  /** No deadlock: while some call is unfinished, some thread inside a call can move. */
  lemma DeadlockFree(e: Endpoint, unfinished: nat) returns (t: nat)
    requires LocksAgree(e) && AssertionsHold(e)
    requires unfinished < |e.threads| && !e.threads[unfinished].Idle?
    ensures Enabled(e, t)
  {
    if e.outLock.Exclusive? {
      t := e.outLock.owner;
    } else if e.inLock.Exclusive? {
      t := e.inLock.owner;
    } else if e.inLock.owners != {} {
      t :| t in e.inLock.owners;
    } else {
      t := unfinished;
    }
  }

  /** What a thread that is about to take a lock would conflict with. */
  predicate Conflicts(waiting: Thread, other: Thread) {
    match waiting
    case ScheduleWait(_) => HoldsOut(other)
    case PopOutWait => HoldsOut(other)
    case AckWait(_, _) => HoldsOut(other)
    case LookWait(_, _) => HoldsIn(other)
    case ReceiveWait(_) => HoldsIn(other) || ReadsIn(other)
    case PopInWait => HoldsIn(other) || ReadsIn(other)
    case _ => false
  }

  /**
   A thread inside a call is held up only while another is inside a conflicting critical section: lookups do not hold
   up each other, nor does anything else that takes no lock or another one.
   */
  lemma BlockedIffConflict(e: Endpoint, t: nat)
    requires LocksAgree(e) && AssertionsHold(e) && t < |e.threads| && !e.threads[t].Idle?
    ensures !Enabled(e, t) <==>
            exists other :: 0 <= other < |e.threads| && other != t && Conflicts(e.threads[t], e.threads[other])
  {
    if !Enabled(e, t) {
      var other;
      if e.threads[t].ScheduleWait? || e.threads[t].PopOutWait? || e.threads[t].AckWait? {
        other := e.outLock.owner;
      } else if e.inLock.Exclusive? {
        other := e.inLock.owner;
      } else {
        other :| other in e.inLock.owners;
      }
      assert Conflicts(e.threads[t], e.threads[other]);
    }
  }

  /** The most steps a thread still has to make to finish its call. */
  function StepsLeft(thread: Thread): nat {
    match thread
    case Idle => 0
    case ScheduleWait(_) => 2
    case ScheduleLocked(_) => 1
    case PopOutWait => 11
    case PopOutLocked => 10
    case LoadAck(_) => 9
    case LookWait(_, i) => 2 * (ACK_COUNT - i)
    case LookLocked(_, i) => 2 * (ACK_COUNT - i) - 1
    case ReceiveWait(_) => 14
    case AckWait(_, n) => 2 * (ACK_COUNT - n) + 5
    case AckLocked(_, n) => 2 * (ACK_COUNT - n) + 4
    case TrackAck(_) => 3
    case Store(_) => 2
    case Drain => 1
    case PushUnreliable(_) => 1
    case PopInWait => 2
    case PopInLocked => 1
  }

  function Work(threads: seq<Thread>): nat {
    if threads == [] then 0 else StepsLeft(threads[0]) + Work(threads[1..])
  }

  lemma {:induction false} WorkUpdate(threads: seq<Thread>, t: nat, thread: Thread)
    requires t < |threads|
    ensures Work(threads[t := thread]) == Work(threads) - StepsLeft(threads[t]) + StepsLeft(thread)
  {
    if t > 0 {
      assert threads[t := thread][1..] == threads[1..][t - 1 := thread];
      WorkUpdate(threads[1..], t - 1, thread);
    }
  }

  lemma WorkShrinks(e: Endpoint, t: nat)
    requires Enabled(e, t)
    ensures Work(Continue(e, t).threads) < Work(e.threads)
  {
    var next := NextThread(e.conn, e.threads[t]);
    assert StepsLeft(next) < StepsLeft(e.threads[t]);
    WorkUpdate(e.threads, t, next);
  }

  /** The threads of `ts` move one after the other, each of them able to. */
  ghost predicate CanRun(e: Endpoint, ts: seq<nat>)
    decreases |ts|
  {
    ts == [] || (Enabled(e, ts[0]) && CanRun(Continue(e, ts[0]), ts[1..]))
  }

  ghost function AfterRun(e: Endpoint, ts: seq<nat>): Endpoint
    requires CanRun(e, ts)
    decreases |ts|
  {
    if ts == [] then e else AfterRun(Continue(e, ts[0]), ts[1..])
  }
}
