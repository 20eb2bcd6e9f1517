/** What an acknowledgement says, and what processing it does to the packets awaiting one. */
module AckWindow {
  import opened Ids
  import opened Packets
  import opened Connections

  /** The ids a packet acknowledging `ackId` reports on by its bits, in descending cyclic order. */
  function Window(ackId: Id): seq<Id> {
    [WindowId(ackId, 0), WindowId(ackId, 1), WindowId(ackId, 2), WindowId(ackId, 3)]
  }

  /** After `n` lookups the bits below `n` tell which ids have been received; the others are clear. */
  lemma {:induction false} HeaderBits(p: Packet, ackId: Id, received: map<Id, Packet>, n: nat, j: nat)
    requires n <= ACK_COUNT && j < 32
    ensures var h := AckHeader(p, ackId, received, n);
            && h.ackId == ackId && h.Content() == p.Content()
            && (h.ackBitset[j] <==> j < n && WindowId(ackId, j) in received)
  {
    if n > 0 {
      HeaderBits(p, ackId, received, n - 1, j);
    }
  }

  /** The ids that the first `n` bits acknowledge. */
  function AckedByBits(p: Packet, n: nat): set<Id>
    requires n <= ACK_COUNT
  {
    if n == 0 then {}
    else AckedByBits(p, n - 1) + if p.ackBitset[n - 1] then {WindowId(p.ackId, n - 1)} else {}
  }

  lemma WindowIdsDiffer(ackId: Id, i: nat, j: nat)
    requires i < ACK_COUNT && j < ACK_COUNT
    ensures WindowId(ackId, i) == WindowId(ackId, j) <==> i == j
    ensures WindowId(ackId, j) != ackId
  {
  }

  lemma {:induction false} AckedByBitsIff(p: Packet, n: nat, j: nat)
    requires n <= ACK_COUNT && j < ACK_COUNT
    ensures WindowId(p.ackId, j) in AckedByBits(p, n) <==> j < n && p.ackBitset[j]
    ensures forall id :: id in AckedByBits(p, n) ==> id in Window(p.ackId)
    ensures p.ackId !in AckedByBits(p, n) && WindowId(p.ackId, j) != p.ackId
  {
    WindowIdsDiffer(p.ackId, j, j);
    if n > 0 {
      AckedByBitsIff(p, n - 1, j);
      assert Window(p.ackId)[n - 1] == WindowId(p.ackId, n - 1);
      WindowIdsDiffer(p.ackId, n - 1, j);
    }
  }

  /** The packets kept under the ids of `ids` except those in `unwanted`, in the order of `ids`. */
  function Select(kept: map<Id, Packet>, ids: seq<Id>, unwanted: set<Id>): seq<Packet> {
    if ids == [] then []
    else
      var front, id := ids[..|ids| - 1], ids[|ids| - 1];
      Select(kept, front, unwanted) + if id in kept && id !in unwanted then [kept[id]] else []
  }

  lemma {:induction false} SelectDependsOn(kept: map<Id, Packet>, ids: seq<Id>, unwanted: set<Id>, unwanted': set<Id>)
    requires forall id :: id in ids && id in kept ==> (id in unwanted <==> id in unwanted')
    ensures Select(kept, ids, unwanted) == Select(kept, ids, unwanted')
  {
    if ids != [] {
      SelectDependsOn(kept, ids[..|ids| - 1], unwanted, unwanted');
    }
  }

  lemma {:induction false} SelectNone(kept: map<Id, Packet>, ids: seq<Id>, unwanted: set<Id>)
    requires forall id :: id in ids && id in kept ==> id in unwanted
    ensures Select(kept, ids, unwanted) == []
  {
    if ids != [] {
      SelectNone(kept, ids[..|ids| - 1], unwanted);
    }
  }

  /** One more visit, after the packets under `gone` have been dropped. */
  lemma VisitEffect(out: Stream, gone: set<Id>, ready: seq<Packet>, id: Id)
    requires id !in gone
    ensures var before := Stream(out.reliable - gone, ready, out.sequence);
            && Acked(before, id) == Stream(out.reliable - (gone + {id}), ready, out.sequence)
            && Rescheduled(before, id) ==
               before.(ready := ready + if id in out.reliable then [out.reliable[id]] else [])
  {
    assert out.reliable - gone - {id} == out.reliable - (gone + {id});
  }

  lemma SelectStep(kept: map<Id, Packet>, ids: seq<Id>, n: nat, unwanted: set<Id>)
    requires 1 <= n <= |ids|
    ensures Select(kept, ids[..n], unwanted) ==
            Select(kept, ids[..n - 1], unwanted) +
            if ids[n - 1] in kept && ids[n - 1] !in unwanted then [kept[ids[n - 1]]] else []
  {
    assert ids[..n][..n - 1] == ids[..n - 1];
  }

  /** The outcome of the first `n` visits after the first, where `acked` gives the meaning of the bits. */
  lemma {:induction false} VisitsClosedForm(out: Stream, p: Packet, acked: set<Id>, n: nat)
    requires n <= ACK_COUNT
    requires forall j :: 0 <= j < ACK_COUNT ==> (WindowId(p.ackId, j) in acked <==> p.ackBitset[j])
    ensures AfterAckVisits(out, p, n + 1) ==
            Stream(out.reliable - ({p.ackId} + AckedByBits(p, n)),
                   out.ready + Select(out.reliable, Window(p.ackId)[..n], acked),
                   out.sequence)
  {
    var w := Window(p.ackId);
    if n == 0 {
      assert AfterAckVisits(out, p, 1) == AckVisit(AfterAckVisits(out, p, 0), p, 0);
    } else {
      VisitsClosedForm(out, p, acked, n - 1);
      AckedByBitsIff(p, n - 1, n - 1);
      var id := WindowId(p.ackId, n - 1);
      assert id == w[n - 1];
      var gone, ready := {p.ackId} + AckedByBits(p, n - 1), out.ready + Select(out.reliable, w[..n - 1], acked);
      SelectStep(out.reliable, w, n, acked);
      VisitEffect(out, gone, ready, id);
      assert gone + {id} == {p.ackId} + (AckedByBits(p, n - 1) + {id});
    }
  }

  /** The effect of any acknowledgement, whoever built it. */
  lemma AckEffect(out: Stream, p: Packet)
    ensures AfterAckVisits(out, p, ACK_COUNT + 1) ==
            Stream(out.reliable - ({p.ackId} + AckedByBits(p, ACK_COUNT)),
                   out.ready + Select(out.reliable, Window(p.ackId), AckedByBits(p, ACK_COUNT)),
                   out.sequence)
  {
    forall j | 0 <= j < ACK_COUNT
      ensures WindowId(p.ackId, j) in AckedByBits(p, ACK_COUNT) <==> p.ackBitset[j]
    {
      AckedByBitsIff(p, ACK_COUNT, j);
    }
    VisitsClosedForm(out, p, AckedByBits(p, ACK_COUNT), ACK_COUNT);
    assert Window(p.ackId)[..ACK_COUNT] == Window(p.ackId);
  }

  /**
   Encoding and decoding an acknowledgement is exact. When the peer builds a header over what it has received,
   processing it drops exactly the acknowledged id and the received ids of the window, makes a fresh copy ready
   of exactly the packets of the window that are still kept and not received, nearest first, and changes
   nothing else.
   */
  lemma AckRoundTrip(out: Stream, p: Packet, ackId: Id, received: map<Id, Packet>)
    ensures AfterAckVisits(out, AckHeader(p, ackId, received, ACK_COUNT), ACK_COUNT + 1) ==
            Stream(out.reliable - ({ackId} + (set id | id in Window(ackId) && id in received)),
                   out.ready + Select(out.reliable, Window(ackId), received.Keys),
                   out.sequence)
  {
    var h := AckHeader(p, ackId, received, ACK_COUNT);
    var w, acked := Window(ackId), AckedByBits(h, ACK_COUNT);
    forall j | 0 <= j < ACK_COUNT
      ensures h.ackId == ackId && (w[j] in acked <==> w[j] in received)
    {
      HeaderBits(p, ackId, received, ACK_COUNT, j);
      AckedByBitsIff(h, ACK_COUNT, j);
      assert w[j] == WindowId(ackId, j);
    }
    assert h.ackId == ackId && acked <= set id | id in w by {
      HeaderBits(p, ackId, received, ACK_COUNT, 0);
      AckedByBitsIff(h, ACK_COUNT, 0);
    }
    AckEffect(out, h);
    SelectDependsOn(out.reliable, w, acked, received.Keys);
    assert acked == set id | id in w && id in received;
  }

  /** The subtraction without its remainder. */
  lemma WindowIdIs(ackId: Id, j: nat)
    requires j < ACK_COUNT
    ensures var a: int := ackId; WindowId(ackId, j) == if a > j then a - j - 1 else a - j - 1 + 0x1_0000
  {
  }

  lemma AtDistance(ackId: Id, id: Id, d: int, j: nat)
    requires ackId != INVALID_ID && id != INVALID_ID && d < LAP && 4 - d < LAP && j < ACK_COUNT
    requires var apart: int := ackId as int - id as int; apart == d || apart == d + LAP || apart == d - LAP
    ensures id == WindowId(ackId, j) <==> ackId as int != j + 1 && d == if ackId as int > j then j + 1 else j
  {
    WindowIdIs(ackId, j);
  }

  lemma WindowByDistance(ackId: Id, id: Id, d: int)
    requires ackId != INVALID_ID && id != INVALID_ID && d < LAP && 4 - d < LAP
    requires var apart: int := ackId as int - id as int; apart == d || apart == d + LAP || apart == d - LAP
    ensures id in Window(ackId) <==> 1 <= d <= if ackId <= 4 then 3 else 4
  {
    AtDistance(ackId, id, d, 0);
    AtDistance(ackId, id, d, 1);
    AtDistance(ackId, id, d, 2);
    AtDistance(ackId, id, d, 3);
    InFour(WindowId(ackId, 0), WindowId(ackId, 1), WindowId(ackId, 2), WindowId(ackId, 3), id);
  }

  lemma InFour(a: Id, b: Id, c: Id, d: Id, id: Id)
    ensures id in [a, b, c, d] <==> id == a || id == b || id == c || id == d
  {
  }

  /**
   The window in positions. An acknowledgement of position `u` reports on the four positions before it, but only on
   three when its id is at most 4: plain subtraction spends one of the four ids on the invalid one.
   */
  lemma WindowInPositions(start: Id, u: nat, v: nat)
    requires 1 <= u && 1 <= v && u < v + LAP && v + 4 < u + LAP
    ensures IdAt(start, v) in Window(IdAt(start, u)) <==> 1 <= u as int - v <= if IdAt(start, u) <= 4 then 3 else 4
  {
    var m: int, n: int := u, v;
    IdsApart(start, v, u);
    WindowByDistance(IdAt(start, u), IdAt(start, v), m - n);
  }

  // ---------- which packets are sent again ----------

  /** Every packet is kept under its own id. */
  ghost predicate Keyed(kept: map<Id, Packet>) {
    forall id :: id in kept ==> kept[id].id == id
  }

  ghost predicate HasCopy(ps: seq<Packet>, id: Id) {
    exists i :: 0 <= i < |ps| && ps[i].id == id
  }

  lemma HasCopyAppend(ps: seq<Packet>, p: Packet, id: Id)
    ensures HasCopy(ps + [p], id) <==> HasCopy(ps, id) || p.id == id
  {
    var qs := ps + [p];
    assert qs[|ps|] == p;
    if i :| 0 <= i < |ps| && ps[i].id == id {
      assert qs[i].id == id;
    }
  }

  lemma {:induction false} SelectHasCopyIff(kept: map<Id, Packet>, ids: seq<Id>, unwanted: set<Id>, id: Id)
    requires Keyed(kept)
    ensures HasCopy(Select(kept, ids, unwanted), id) <==> id in ids && id in kept && id !in unwanted
  {
    if ids != [] {
      var front, last := ids[..|ids| - 1], ids[|ids| - 1];
      SelectHasCopyIff(kept, front, unwanted, id);
      assert ids == front + [last];
      assert Select(kept, ids, unwanted) ==
             Select(kept, front, unwanted) + if last in kept && last !in unwanted then [kept[last]] else [];
      if last in kept && last !in unwanted {
        HasCopyAppend(Select(kept, front, unwanted), kept[last], id);
      } else {
        assert Select(kept, ids, unwanted) == Select(kept, front, unwanted);
      }
    }
  }

  /**
   A packet the peer lacks is sent again exactly when it is still kept and lies at most four ids behind the
   peer's acknowledged id.
   */
  lemma ResentIff(out: Stream, p: Packet, ackId: Id, received: map<Id, Packet>, id: Id)
    requires Keyed(out.reliable)
    ensures var after := AfterAckVisits(out, AckHeader(p, ackId, received, ACK_COUNT), ACK_COUNT + 1);
            && out.ready <= after.ready
            && (HasCopy(after.ready[|out.ready|..], id) <==>
                id in out.reliable && id in Window(ackId) && id !in received)
  {
    AckRoundTrip(out, p, ackId, received);
    SelectHasCopyIff(out.reliable, Window(ackId), received.Keys, id);
    var resent := Select(out.reliable, Window(ackId), received.Keys);
    assert (out.ready + resent)[|out.ready|..] == resent;
  }

  function AfterAcks(out: Stream, ps: seq<Packet>): Stream {
    if ps == [] then out else AfterAckVisits(AfterAcks(out, ps[..|ps| - 1]), ps[|ps| - 1], ACK_COUNT + 1)
  }

  /**
   So retransmission is not unconditional: a lost packet that no later acknowledgement mentions is kept for ever
   and never sent again, however many acknowledgements arrive.
   */
  lemma {:induction false} UnmentionedIsNeverResent(out: Stream, ps: seq<Packet>, id: Id)
    requires Keyed(out.reliable) && id in out.reliable
    requires forall i :: 0 <= i < |ps| ==> ps[i].ackId != id && id !in Window(ps[i].ackId)
    ensures var after := AfterAcks(out, ps);
            && id in after.reliable && after.reliable[id] == out.reliable[id] && Keyed(after.reliable)
            && out.ready <= after.ready && !HasCopy(after.ready[|out.ready|..], id)
  {
    if ps == [] {
      assert out.ready[|out.ready|..] == [];
    } else {
      var front, p := ps[..|ps| - 1], ps[|ps| - 1];
      assert p == ps[|ps| - 1];
      UnmentionedIsNeverResent(out, front, id);
      var mid := AfterAcks(out, front);
      var w, acked := Window(p.ackId), AckedByBits(p, ACK_COUNT);
      AckEffect(mid, p);
      AckedByBitsIff(p, ACK_COUNT, 0);
      SelectHasCopyIff(mid.reliable, w, acked, id);
      var old', new' := mid.ready[|out.ready|..], Select(mid.reliable, w, acked);
      assert AfterAcks(out, ps).ready[|out.ready|..] == old' + new';
    }
  }

  lemma WindowOfSix()
    ensures Window(6) == [5, 4, 3, 2]
  {
    WindowIdIs(6, 0);
    WindowIdIs(6, 1);
    WindowIdIs(6, 2);
    WindowIdIs(6, 3);
  }

  /** What is left when all but the first of six packets are acknowledged. */
  lemma AllButTheFirst(kept: map<Id, Packet>, received: map<Id, Packet>, acked: set<Id>)
    requires kept.Keys == {1, 2, 3, 4, 5, 6} && received.Keys == {2, 3, 4, 5, 6}
    requires acked == {6} + set id | id in [5, 4, 3, 2] && id in received
    ensures (kept - acked).Keys == {1}
  {
    assert acked == {2, 3, 4, 5, 6};
  }

  /** A concrete loss: six packets sent, the first lost, and the peer's acknowledgement has moved on to 6. */
  lemma LostBehindTheWindow(p: Packet, kept: map<Id, Packet>, received: map<Id, Packet>)
    requires kept.Keys == {1, 2, 3, 4, 5, 6} && received.Keys == {2, 3, 4, 5, 6}
    ensures var after := AfterAckVisits(Stream(kept, [], 6), AckHeader(p, 6, received, ACK_COUNT), ACK_COUNT + 1);
            after.reliable.Keys == {1} && after.ready == []
  {
    AckRoundTrip(Stream(kept, [], 6), p, 6, received);
    WindowOfSix();
    SelectNone(kept, Window(6), received.Keys);
    AllButTheFirst(kept, received, {6} + set id | id in [5, 4, 3, 2] && id in received);
  }
}
