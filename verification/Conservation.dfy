/**
 Nothing is made up and nothing is lost between the calls: what departs is what has been popped, what is made ready
 first is what has been scheduled, and what is queued as unreliable is what has been received. All of it over every
 run, counting the packets that threads have in hand on the way. The laws count copies of one packet `q`, any packet.
 */
module Conservation {
  import opened Ids
  import opened Packets
  import opened Connections
  import opened Endpoints
  import opened Invariants
  import opened Network
  import opened Recovery

  /** The three ways through an endpoint that packets are counted on. */
  datatype Way = Sending | Scheduling | Receiving

  /** A packet as the application has given it: a reliable one without its id. */
  function AsGiven(p: Packet): Packet {
    if p.IsReliable() then p.(id := INVALID_ID) else p
  }

  /** What does not change on the way. */
  function View(way: Way, p: Packet): Packet {
    match way
    case Sending => p.Content()
    case Scheduling => AsGiven(p)
    case Receiving => p
  }

  function One(way: Way, p: Packet, q: Packet): nat {
    if View(way, p) == q then 1 else 0
  }

  /** How often `q` is among `ps`. */
  function Count(way: Way, ps: seq<Packet>, q: Packet): nat {
    if ps == [] then 0 else Count(way, ps[..|ps| - 1], q) + One(way, ps[|ps| - 1], q)
  }

  lemma {:induction false} CountConcat(way: Way, ps: seq<Packet>, qs: seq<Packet>, q: Packet)
    ensures Count(way, ps + qs, q) == Count(way, ps, q) + Count(way, qs, q)
  {
    if qs == [] {
      assert ps + qs == ps;
    } else {
      assert (ps + qs)[..|ps + qs| - 1] == ps + qs[..|qs| - 1];
      CountConcat(way, ps, qs[..|qs| - 1], q);
    }
  }

  lemma CountOne(way: Way, p: Packet, q: Packet)
    ensures Count(way, [p], q) == One(way, p, q)
  {
    assert [p][..0] == [];
  }

  /** Whether a thread has a packet in hand on the way. */
  predicate Carries(way: Way, thread: Thread) {
    match way
    case Sending => thread.LoadAck? || thread.LookWait? || thread.LookLocked?
    case Scheduling => thread.ScheduleWait? || thread.ScheduleLocked?
    case Receiving =>
      || ((thread.ReceiveWait? || thread.AckWait? || thread.AckLocked?) && !thread.packet.IsReliable())
      || thread.PushUnreliable?
  }

  function Hand(way: Way, thread: Thread, q: Packet): nat {
    if Carries(way, thread) then One(way, thread.packet, q) else 0
  }

  /** How often the threads together have `q` in hand. */
  function InHand(way: Way, threads: seq<Thread>, q: Packet): nat {
    if threads == [] then 0 else Hand(way, threads[0], q) + InHand(way, threads[1..], q)
  }

  lemma {:induction false} InHandUpdate(way: Way, threads: seq<Thread>, t: nat, next: Thread, q: Packet)
    requires t < |threads|
    ensures InHand(way, threads[t := next], q) + Hand(way, threads[t], q) ==
            InHand(way, threads, q) + Hand(way, next, q)
  {
    if t > 0 {
      assert threads[t := next][1..] == threads[1..][t - 1 := next];
      InHandUpdate(way, threads[1..], t - 1, next, q);
    }
  }

  lemma {:induction false} NothingInHand(way: Way, threads: seq<Thread>, q: Packet)
    requires forall t :: 0 <= t < |threads| ==> threads[t].Idle?
    ensures InHand(way, threads, q) == 0
  {
    if threads != [] {
      NothingInHand(way, threads[1..], q);
    }
  }

  // ---------- what departs is what has been popped ----------

  lemma SendingStep(c: Conn, thread: Thread, q: Packet)
    ensures Hand(Sending, NextThread(c, thread), q) + Count(Sending, DepartsNow(c.incoming, thread), q) ==
            Hand(Sending, thread, q) + Count(Sending, PopsNow(c.outgoing, thread), q)
  {
    if thread.PopOutLocked? && c.outgoing.ready != [] {
      CountOne(Sending, c.outgoing.ready[0], q);
    } else if thread.LookLocked? {
      CountOne(Sending, Marked(thread.packet, thread.bit, c.incoming.reliable), q);
      assert Marked(thread.packet, thread.bit, c.incoming.reliable).Content() == thread.packet.Content();
    }
  }

  /** Since `initial` had departed. */
  ghost predicate SendingConserved(initial: seq<Packet>, e: Endpoint, q: Packet) {
    Count(Sending, e.departed, q) + InHand(Sending, e.threads, q) ==
    Count(Sending, initial, q) + Count(Sending, e.popped, q)
  }

  lemma SendingConservedStep(initial: seq<Packet>, e: Endpoint, t: nat, q: Packet)
    requires SendingConserved(initial, e, q) && Enabled(e, t)
    ensures SendingConserved(initial, Continue(e, t), q)
  {
    var c, thread := e.conn, e.threads[t];
    SendingStep(c, thread, q);
    InHandUpdate(Sending, e.threads, t, NextThread(c, thread), q);
    CountConcat(Sending, e.departed, DepartsNow(c.incoming, thread), q);
    CountConcat(Sending, e.popped, PopsNow(c.outgoing, thread), q);
  }

  lemma SendingConservedAfter(initial: seq<Packet>, e: Endpoint, peer: Endpoint, a: Action, q: Packet)
    requires SendingConserved(initial, e, q)
    ensures SendingConserved(initial, EndpointAfter(e, peer, a), q)
  {
    match a
    case Begin(_, t, call) =>
      if CanBegin(e, peer, t, call) {
        InHandUpdate(Sending, e.threads, t, Start(call), q);
      }
    case Step(_, t) =>
      if Enabled(e, t) {
        SendingConservedStep(initial, e, t, q);
      }
  }

  /**
   After every run, for every packet `q`: what has departed since the start, with what threads have popped and not
   yet sent, holds `q` exactly as often as what has been popped, up to the acknowledgement. Nothing else is ever sent.
   */
  lemma {:induction false} OnlyPoppedDeparts(
    s: System, leftStart: Id, rightStart: Id, actions: seq<Action>, side: Side, q: Packet)
    requires Init(s, leftStart, rightStart)
    ensures SendingConserved(From(s, side).departed, From(Run(s, actions), side), q)
  {
    if actions == [] {
      NothingInHand(Sending, From(s, side).threads, q);
    } else {
      var front, a := actions[..|actions| - 1], actions[|actions| - 1];
      OnlyPoppedDeparts(s, leftStart, rightStart, front, side, q);
      if a.side == side {
        SendingConservedAfter(From(s, side).departed, From(Run(s, front), side), To(Run(s, front), side), a, q);
      }
    }
  }

  // ---------- what is made ready first is what has been scheduled ----------

  /** The packets given to `Schedule`, in order. */
  function Given(s: System, actions: seq<Action>, side: Side): seq<Packet> {
    if actions == [] then []
    else
      var front, a := actions[..|actions| - 1], actions[|actions| - 1];
      var before := Run(s, front);
      Given(s, front, side) +
      if a.Begin? && a.side == side && a.call.CallSchedule?
         && CanBegin(From(before, side), To(before, side), a.thread, a.call)
      then [a.call.packet] else []
  }

  ghost predicate SchedulingConserved(given: seq<Packet>, e: Endpoint, q: Packet) {
    Count(Scheduling, given, q) ==
    InHand(Scheduling, e.threads, q) + Count(Scheduling, e.scheduled, q) +
    Count(Scheduling, Unreliables(e.Pushed()), q)
  }

  ghost predicate KeepsRightly(out: Stream) {
    forall id :: id in out.reliable ==> KeptRightly(out.reliable[id], id)
  }

  lemma ResentIsReliable(out: Stream, thread: Thread)
    requires KeepsRightly(out) && thread.AckLocked?
    ensures Unreliables(PushesNow(out, thread)) == []
  {
    var pushed := PushesNow(out, thread);
    if pushed != [] {
      AllReliable(pushed);
    }
  }

  lemma ScheduleStep(out: Stream, p: Packet, q: Packet)
    ensures var thread := ScheduleLocked(p);
            Count(Scheduling, SchedulesNow(out, thread), q) +
            Count(Scheduling, Unreliables(PushesNow(out, thread)), q) == One(Scheduling, p, q)
  {
    var numbered := p.(id := Succ(out.sequence));
    if p.IsReliable() {
      AllReliable([numbered]);
      CountOne(Scheduling, numbered, q);
    } else {
      NoneReliable(p);
      CountOne(Scheduling, p, q);
    }
  }

  /** A step turns what is in hand into a scheduled packet, or a ready unreliable one. */
  lemma SchedulingStep(c: Conn, thread: Thread, q: Packet)
    requires KeepsRightly(c.outgoing)
    ensures Hand(Scheduling, thread, q) ==
            Hand(Scheduling, NextThread(c, thread), q) + Count(Scheduling, SchedulesNow(c.outgoing, thread), q) +
            Count(Scheduling, Unreliables(PushesNow(c.outgoing, thread)), q)
  {
    if thread.ScheduleLocked? {
      ScheduleStep(c.outgoing, thread.packet, q);
    } else if thread.AckLocked? {
      ResentIsReliable(c.outgoing, thread);
    }
  }

  lemma SchedulingConservedStep(given: seq<Packet>, e: Endpoint, t: nat, q: Packet)
    requires SchedulingConserved(given, e, q) && Enabled(e, t) && KeepsRightly(e.conn.outgoing)
    ensures SchedulingConserved(given, Continue(e, t), q)
  {
    var c, thread := e.conn, e.threads[t];
    SchedulingStep(c, thread, q);
    InHandUpdate(Scheduling, e.threads, t, NextThread(c, thread), q);
    CountConcat(Scheduling, e.scheduled, SchedulesNow(c.outgoing, thread), q);
    PushedStep(e, t);
    ReliablesConcat(e.Pushed(), PushesNow(c.outgoing, thread));
    CountConcat(Scheduling, Unreliables(e.Pushed()), Unreliables(PushesNow(c.outgoing, thread)), q);
  }

  lemma SchedulingConservedBegin(given: seq<Packet>, e: Endpoint, t: nat, call: Call, q: Packet)
    requires SchedulingConserved(given, e, q) && t < |e.threads| && e.threads[t].Idle?
    ensures SchedulingConserved(given + if call.CallSchedule? then [call.packet] else [], Begun(e, t, call), q)
  {
    InHandUpdate(Scheduling, e.threads, t, Start(call), q);
    assert Begun(e, t, call).Pushed() == e.Pushed();
    if call.CallSchedule? {
      CountConcat(Scheduling, given, [call.packet], q);
      CountOne(Scheduling, call.packet, q);
    } else {
      assert given + [] == given;
    }
  }

  lemma ReachableKept(s: System, leftStart: Id, rightStart: Id, actions: seq<Action>, side: Side)
    requires Init(s, leftStart, rightStart)
    ensures KeepsRightly(From(Run(s, actions), side).conn.outgoing)
  {
    ReachableIds(s, leftStart, rightStart, actions);
  }

  lemma SchedulingConservedAfter(
    s: System, leftStart: Id, rightStart: Id, front: seq<Action>, a: Action, given: seq<Packet>, q: Packet)
    requires Init(s, leftStart, rightStart) && SchedulingConserved(given, From(Run(s, front), a.side), q)
    ensures var e, peer := From(Run(s, front), a.side), To(Run(s, front), a.side);
            var more := if a.Begin? && a.call.CallSchedule? && CanBegin(e, peer, a.thread, a.call)
                        then [a.call.packet] else [];
            SchedulingConserved(given + more, EndpointAfter(e, peer, a), q)
  {
    var e, peer := From(Run(s, front), a.side), To(Run(s, front), a.side);
    assert given + [] == given;
    if a.Begin? && CanBegin(e, peer, a.thread, a.call) {
      SchedulingConservedBegin(given, e, a.thread, a.call, q);
    } else if a.Step? && Enabled(e, a.thread) {
      ReachableKept(s, leftStart, rightStart, front, a.side);
      SchedulingConservedStep(given, e, a.thread, q);
    }
  }

  /**
   After every run, for every packet `q`: the packets given to `Schedule` hold `q` exactly as often as those whose
   calls have not got to it yet, those scheduled as reliable, and the unreliable ones made ready, together. None is
   dropped, doubled or invented.
   */
  lemma {:induction false} OnlyGivenIsReady(
    s: System, leftStart: Id, rightStart: Id, actions: seq<Action>, side: Side, q: Packet)
    requires Init(s, leftStart, rightStart)
    ensures SchedulingConserved(Given(s, actions, side), From(Run(s, actions), side), q)
  {
    if actions == [] {
      NothingInHand(Scheduling, From(s, side).threads, q);
      assert From(s, side).Pushed() == [];
    } else {
      var front, a := actions[..|actions| - 1], actions[|actions| - 1];
      OnlyGivenIsReady(s, leftStart, rightStart, front, side, q);
      assert Given(s, front, side) + [] == Given(s, front, side);
      if a.side == side {
        SchedulingConservedAfter(s, leftStart, rightStart, front, a, Given(s, front, side), q);
      }
    }
  }

  lemma {:induction false} CountedIsIn(way: Way, ps: seq<Packet>, q: Packet) returns (i: nat)
    requires Count(way, ps, q) > 0
    ensures i < |ps| && View(way, ps[i]) == q
  {
    var n := |ps| - 1;
    if View(way, ps[n]) == q {
      i := n;
    } else {
      i := CountedIsIn(way, ps[..n], q);
    }
  }

  lemma {:induction false} InIsCounted(way: Way, ps: seq<Packet>, i: nat)
    requires i < |ps|
    ensures Count(way, ps, View(way, ps[i])) > 0
  {
    if i < |ps| - 1 {
      InIsCounted(way, ps[..|ps| - 1], i);
    }
  }

  lemma {:induction false} GivenByCall(s: System, actions: seq<Action>, side: Side, i: nat) returns (k: nat)
    requires i < |Given(s, actions, side)|
    ensures k < |actions| && actions[k].Begin? && actions[k].side == side
    ensures actions[k].call == CallSchedule(Given(s, actions, side)[i])
  {
    var n := |actions| - 1;
    if i < |Given(s, actions[..n], side)| {
      k := GivenByCall(s, actions[..n], side, i);
    } else {
      k := n;
    }
  }

  lemma {:induction false} UnreliablesAre(ps: seq<Packet>, i: nat)
    requires i < |Unreliables(ps)|
    ensures !Unreliables(ps)[i].IsReliable()
  {
    if i < |Unreliables(ps[..|ps| - 1])| {
      UnreliablesAre(ps[..|ps| - 1], i);
    }
  }

  /** Every unreliable packet ever made ready for sending is one that a call of `Schedule` was given. */
  lemma UnreliableWasGiven(s: System, leftStart: Id, rightStart: Id, actions: seq<Action>, side: Side, i: nat)
    returns (k: nat)
    requires Init(s, leftStart, rightStart) && i < |Unreliables(From(Run(s, actions), side).Pushed())|
    ensures k < |actions| && actions[k].Begin? && actions[k].side == side
    ensures actions[k].call == CallSchedule(Unreliables(From(Run(s, actions), side).Pushed())[i])
  {
    var given, unreliable := Given(s, actions, side), Unreliables(From(Run(s, actions), side).Pushed());
    UnreliablesAre(From(Run(s, actions), side).Pushed(), i);
    var p := unreliable[i];
    OnlyGivenIsReady(s, leftStart, rightStart, actions, side, p);
    InIsCounted(Scheduling, unreliable, i);
    var j := CountedIsIn(Scheduling, given, p);
    k := GivenByCall(s, actions, side, j);
  }

  // ---------- what is queued as unreliable is what has been received ----------

  /** The unreliable packets given to `Received`, in order. */
  function Heard(s: System, actions: seq<Action>, side: Side): seq<Packet> {
    if actions == [] then []
    else
      var front, a := actions[..|actions| - 1], actions[|actions| - 1];
      var before := Run(s, front);
      Heard(s, front, side) +
      if a.Begin? && a.side == side && a.call.CallReceive? && !a.call.packet.IsReliable()
         && CanBegin(From(before, side), To(before, side), a.thread, a.call)
      then [a.call.packet] else []
  }

  ghost predicate ReceivingConserved(heard: seq<Packet>, e: Endpoint, q: Packet) {
    Count(Receiving, heard, q) == InHand(Receiving, e.threads, q) + Count(Receiving, e.arrivals, q)
  }

  lemma ReceivingStep(c: Conn, thread: Thread, q: Packet)
    requires thread.PushUnreliable? ==> !thread.packet.IsReliable()
    ensures Hand(Receiving, thread, q) ==
            Hand(Receiving, NextThread(c, thread), q) + Count(Receiving, ArrivesNow(thread), q)
  {
    if thread.PushUnreliable? {
      CountOne(Receiving, thread.packet, q);
    }
  }

  lemma ReceivingConservedStep(heard: seq<Packet>, e: Endpoint, t: nat, q: Packet)
    requires ReceivingConserved(heard, e, q) && Enabled(e, t)
    requires e.threads[t].PushUnreliable? ==> !e.threads[t].packet.IsReliable()
    ensures ReceivingConserved(heard, Continue(e, t), q)
  {
    var c, thread := e.conn, e.threads[t];
    ReceivingStep(c, thread, q);
    InHandUpdate(Receiving, e.threads, t, NextThread(c, thread), q);
    CountConcat(Receiving, e.arrivals, ArrivesNow(thread), q);
  }

  lemma ReceivingConservedBegin(heard: seq<Packet>, e: Endpoint, t: nat, call: Call, q: Packet)
    requires ReceivingConserved(heard, e, q) && t < |e.threads| && e.threads[t].Idle?
    ensures ReceivingConserved(heard + if call.CallReceive? && !call.packet.IsReliable() then [call.packet] else [],
                               Begun(e, t, call), q)
  {
    InHandUpdate(Receiving, e.threads, t, Start(call), q);
    assert heard + [] == heard;
    if call.CallReceive? && !call.packet.IsReliable() {
      CountConcat(Receiving, heard, [call.packet], q);
      CountOne(Receiving, call.packet, q);
    }
  }

  lemma ReachablePush(s: System, leftStart: Id, rightStart: Id, actions: seq<Action>, side: Side, t: nat)
    requires Init(s, leftStart, rightStart) && t < |From(Run(s, actions), side).threads|
    ensures var thread := From(Run(s, actions), side).threads[t];
            thread.PushUnreliable? ==> !thread.packet.IsReliable()
  {
    UnconditionalAlways(s, leftStart, rightStart, actions);
    assert ArrivalSide(From(Run(s, actions), side));
    assert SortedByReliability(From(Run(s, actions), side).threads[t]);
  }

  lemma ReceivingConservedAfter(
    s: System, leftStart: Id, rightStart: Id, front: seq<Action>, a: Action, heard: seq<Packet>, q: Packet)
    requires Init(s, leftStart, rightStart) && ReceivingConserved(heard, From(Run(s, front), a.side), q)
    ensures var e, peer := From(Run(s, front), a.side), To(Run(s, front), a.side);
            var more := if a.Begin? && a.call.CallReceive? && !a.call.packet.IsReliable()
                           && CanBegin(e, peer, a.thread, a.call)
                        then [a.call.packet] else [];
            ReceivingConserved(heard + more, EndpointAfter(e, peer, a), q)
  {
    var e, peer := From(Run(s, front), a.side), To(Run(s, front), a.side);
    assert heard + [] == heard;
    if a.Begin? && CanBegin(e, peer, a.thread, a.call) {
      ReceivingConservedBegin(heard, e, a.thread, a.call, q);
    } else if a.Step? && Enabled(e, a.thread) {
      ReachablePush(s, leftStart, rightStart, front, a.side, a.thread);
      ReceivingConservedStep(heard, e, a.thread, q);
    }
  }

  /**
   After every run, for every packet `q`: the unreliable packets given to `Received` hold `q` exactly as often as
   those still inside a call and those queued for the application together.
   */
  lemma {:induction false} OnlyHeardIsQueued(
    s: System, leftStart: Id, rightStart: Id, actions: seq<Action>, side: Side, q: Packet)
    requires Init(s, leftStart, rightStart)
    ensures ReceivingConserved(Heard(s, actions, side), From(Run(s, actions), side), q)
  {
    if actions == [] {
      NothingInHand(Receiving, From(s, side).threads, q);
    } else {
      var front, a := actions[..|actions| - 1], actions[|actions| - 1];
      OnlyHeardIsQueued(s, leftStart, rightStart, front, side, q);
      assert Heard(s, front, side) + [] == Heard(s, front, side);
      if a.side == side {
        ReceivingConservedAfter(s, leftStart, rightStart, front, a, Heard(s, front, side), q);
      }
    }
  }
}
