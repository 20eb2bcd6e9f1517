/** Whole calls of one thread, undisturbed, as runs of the system: what a call does, and a way to build runs. */
module Calls {
  import opened Ids
  import opened Packets
  import opened Connections
  import opened Endpoints
  import opened Sequential
  import opened Network

  function With(s: System, side: Side, e: Endpoint): System {
    if side.Left? then s.(left := e) else s.(right := e)
  }

  /** Nobody holds a lock, and thread `t` is free for a call. */
  ghost predicate Free(e: Endpoint, t: nat) {
    Unlocked(e) && t < |e.threads| && e.threads[t].Idle?
  }

  ghost predicate Ready(e: Endpoint) {
    Free(e, 0)
  }

  function Steps(side: Side, t: nat, k: nat): seq<Action> {
    if k == 0 then [] else Steps(side, t, k - 1) + [Step(side, t)]
  }

  /** Steps of one thread alone, as a run of the system. */
  lemma {:induction false} StepsFollowPath(
    s: System, side: Side, t: nat, path: seq<Endpoint>, e: Endpoint, e': Endpoint)
    requires Leads(path, t, e, e') && e == From(s, side)
    ensures Run(s, Steps(side, t, |path| - 1)) == With(s, side, e')
  {
    if |path| > 1 {
      var front, k := path[..|path| - 1], |path| - 1;
      StepsFollowPath(s, side, t, front, e, front[k - 1]);
      assert Steps(side, t, k)[..|Steps(side, t, k)| - 1] == Steps(side, t, k - 1);
    }
  }

  lemma CallBegins(s: System, actions: seq<Action>, s0: System, side: Side, t: nat, call: Call)
    requires s0 == Run(s, actions) && CanBegin(From(s0, side), To(s0, side), t, call)
    ensures Run(s, actions + [Begin(side, t, call)]) == With(s0, side, Begun(From(s0, side), t, call))
  {
    RunAppend(s, actions, Begin(side, t, call));
  }

  lemma WithTwice(s: System, side: Side, e: Endpoint, e': Endpoint)
    ensures From(With(s, side, e), side) == e && With(With(s, side, e), side, e') == With(s, side, e')
  {
  }

  /** A run can be continued by a whole call of thread `t`. */
  lemma WholeCall(
    s: System, actions: seq<Action>, s0: System, side: Side, t: nat, call: Call, path: seq<Endpoint>, done: Endpoint)
    returns (more: seq<Action>)
    requires s0 == Run(s, actions) && CanBegin(From(s0, side), To(s0, side), t, call)
    requires Leads(path, t, Begun(From(s0, side), t, call), done)
    ensures more != [] && more[0] == Begin(side, t, call) && Run(s, actions + more) == With(s0, side, done)
  {
    var begin, steps, begun := [Begin(side, t, call)], Steps(side, t, |path| - 1), Begun(From(s0, side), t, call);
    more := begin + steps;
    RunRegroup(s, actions, begin, steps);
    RunConcat(s, actions + begin, steps);
    CallBegins(s, actions, s0, side, t, call);
    WithTwice(s0, side, begun, done);
    StepsFollowPath(With(s0, side, begun), side, t, path, begun, done);
  }

  /** What every whole call leaves alone. */
  ghost predicate Continues(s0: System, s1: System, side: Side) {
    var e, e' := From(s0, side), From(s1, side);
    s1 == With(s0, side, e') && Unlocked(e') && e'.threads == e.threads
  }

  /** The packet as `Schedule` makes it ready. */
  function WithId(out: Stream, p: Packet): Packet {
    if p.IsReliable() then p.(id := Succ(out.sequence)) else p
  }

  /** A packet is made ready last; a reliable one gets the next id, is kept under it, and counts as scheduled. */
  lemma CallSchedules(s: System, actions: seq<Action>, s0: System, side: Side, t: nat, p: Packet)
    returns (more: seq<Action>)
    requires s0 == Run(s, actions) && Free(From(s0, side), t)
    ensures var s1 := Run(s, actions + more);
            var e, e' := From(s0, side), From(s1, side);
            var out, out', new' := e.conn.outgoing, e'.conn.outgoing, WithId(e.conn.outgoing, p);
            && Continues(s0, s1, side) && e' == e.(conn := e'.conn, scheduled := e'.scheduled)
            && e'.conn == e.conn.(outgoing := out') && out'.ready == out.ready + [new']
            && out'.reliable == (if p.IsReliable() then out.reliable[new'.id := new'] else out.reliable)
            && out'.sequence == (if p.IsReliable() then new'.id else out.sequence)
            && e'.scheduled == e.scheduled + if p.IsReliable() then [new'] else []
  {
    var begun := Begun(From(s0, side), t, CallSchedule(p));
    var path := SoloSchedule(begun, t, p);
    more := WholeCall(s, actions, s0, side, t, CallSchedule(p), path, DoneSchedule(begun, t, p));
  }

  /** The oldest ready packet departs, with the acknowledgement of the moment. */
  lemma CallSends(s: System, actions: seq<Action>, s0: System, side: Side, t: nat) returns (more: seq<Action>)
    requires s0 == Run(s, actions) && Free(From(s0, side), t) && From(s0, side).conn.outgoing.ready != []
    ensures var s1 := Run(s, actions + more);
            var e, e' := From(s0, side), From(s1, side);
            var out := e.conn.outgoing;
            && Continues(s0, s1, side) && e' == e.(conn := e'.conn, popped := e'.popped, departed := e'.departed)
            && e'.conn == e.conn.(outgoing := out.(ready := out.ready[1..]))
            && e'.popped == e.popped + [out.ready[0]]
            && e'.departed ==
               e.departed + [AckHeader(out.ready[0], e.conn.ackId, e.conn.incoming.reliable, ACK_COUNT)]
  {
    var begun := Begun(From(s0, side), t, CallPopOutgoing);
    var path := SoloSend(begun, t);
    more := WholeCall(s, actions, s0, side, t, CallPopOutgoing, path, DoneSend(begun, t));
  }

  /** With nothing ready, nothing departs and nothing changes. */
  lemma CallSendsNothing(s: System, actions: seq<Action>, s0: System, side: Side, t: nat) returns (more: seq<Action>)
    requires s0 == Run(s, actions) && Free(From(s0, side), t) && From(s0, side).conn.outgoing.ready == []
    ensures more != [] && more[0] == Begin(side, t, CallPopOutgoing) && Run(s, actions + more) == s0
  {
    var begun := Begun(From(s0, side), t, CallPopOutgoing);
    var path := SoloSendNothing(begun, t);
    more := WholeCall(s, actions, s0, side, t, CallPopOutgoing, path, begun.(threads := begun.threads[t := Idle]));
  }

  /** A packet that has departed from the other side is received. */
  lemma CallReceives(s: System, actions: seq<Action>, s0: System, side: Side, t: nat, p: Packet)
    returns (more: seq<Action>)
    requires s0 == Run(s, actions) && Free(From(s0, side), t)
    requires p in To(s0, side).departed && ValidId(p)
    ensures var s1 := Run(s, actions + more);
            var e, e' := From(s0, side), From(s1, side);
            && Continues(s0, s1, side) && e' == e.(conn := Received(e.conn, p), arrivals := e'.arrivals)
            && e'.arrivals == e.arrivals + if p.IsReliable() then [] else [p]
  {
    var begun := Begun(From(s0, side), t, CallReceive(p));
    var done := begun.(conn := Received(begun.conn, p), threads := begun.threads[t := Idle],
                       arrivals := begun.arrivals + if p.IsReliable() then [] else [p]);
    var path := SoloReceive(begun, t, p, done);
    more := WholeCall(s, actions, s0, side, t, CallReceive(p), path, done);
  }

  /** The application gets the oldest ready packet; with nothing ready it gets nothing, and nothing changes. */
  lemma CallPops(s: System, actions: seq<Action>, s0: System, side: Side, t: nat) returns (more: seq<Action>)
    requires s0 == Run(s, actions) && Free(From(s0, side), t)
    ensures more != [] && more[0] == Begin(side, t, CallPopIncoming)
    ensures var s1 := Run(s, actions + more);
            var e, e' := From(s0, side), From(s1, side);
            var inc := e.conn.incoming;
            && Continues(s0, s1, side)
            && (inc.ready == [] ==> e' == e)
            && (inc.ready != [] ==>
                  e' == e.(conn := e.conn.(incoming := inc.(ready := inc.ready[1..])),
                           consumed := e.consumed + [inc.ready[0]]))
  {
    var begun := Begun(From(s0, side), t, CallPopIncoming);
    var path := SoloPopIncoming(begun, t);
    more := WholeCall(s, actions, s0, side, t, CallPopIncoming, path, DonePop(begun, t));
  }

  /** All that is ready for the application can be consumed, in order. */
  lemma {:induction false} AllIsConsumed(s: System, actions: seq<Action>, s0: System, side: Side, t: nat)
    returns (longer: seq<Action>)
    requires s0 == Run(s, actions) && Free(From(s0, side), t)
    ensures var s1 := Run(s, longer);
            var e, e' := From(s0, side), From(s1, side);
            && Continues(s0, s1, side) && e'.conn.incoming == e.conn.incoming.(ready := [])
            && e' == e.(conn := e.conn.(incoming := e'.conn.incoming), consumed := e.Enqueued())
    decreases |From(s0, side).conn.incoming.ready|
  {
    var e := From(s0, side);
    if e.conn.incoming.ready == [] {
      longer := actions;
      assert e.Enqueued() == e.consumed;
    } else {
      var one := CallPops(s, actions, s0, side, t);
      var s1 := Run(s, actions + one);
      longer := AllIsConsumed(s, actions + one, s1, side, t);
      assert From(s1, side).Enqueued() == e.Enqueued();
    }
  }

  /** One more reliable packet is scheduled and sent by a side with nothing else to send. */
  lemma ScheduleAndSend(s: System, actions: seq<Action>, s0: System, side: Side, p: Packet)
    returns (longer: seq<Action>)
    requires s0 == Run(s, actions) && Ready(From(s0, side)) && From(s0, side).conn.outgoing.ready == []
    requires p.IsReliable()
    ensures var s2 := Run(s, longer);
            var e, e' := From(s0, side), From(s2, side);
            var numbered := p.(id := Succ(e.conn.outgoing.sequence));
            && Continues(s0, s2, side) && e'.scheduled == e.scheduled + [numbered]
            && e'.conn.outgoing.ready == [] && e'.conn.outgoing.sequence == numbered.id
            && e'.departed ==
               e.departed + [AckHeader(numbered, e.conn.ackId, e.conn.incoming.reliable, ACK_COUNT)]
  {
    var one := CallSchedules(s, actions, s0, side, 0, p);
    var two := CallSends(s, actions + one, Run(s, actions + one), side, 0);
    longer := actions + one + two;
  }
}
