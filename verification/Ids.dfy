/**
 Packet ids: 16-bit numbers in which 0 means "no id", so that ids run in a cycle of 65535
 (1, 2, ..., 65535, 1, ...), and the half-range comparison that decides which of two ids is later.

 Proofs speak of *positions*: the n-th reliable packet of a stream, n counted from 1 and never wrapped.
 `IdAt` and `PosOf` translate between positions and ids.
 */
module Ids {

  type Id = n: int | 0 <= n < 0x1_0000

  const INVALID_ID: Id := 0
  const MAX_POSSIBLE_ID: Id := 0xFFFF
  const HALF_ID: Id := MAX_POSSIBLE_ID / 2

  /** The number of usable ids. */
  const LAP: nat := 65535

  /** Arithmetic on a 16-bit unsigned integer. */
  function Wrap(n: int): Id {
    n % 0x1_0000
  }

  /** The id that follows `id`, skipping the invalid id. */
  function Succ(id: Id): Id {
    if id == MAX_POSSIBLE_ID then 1 else id + 1
  }

  /** The id of position `n` in a stream whose sequence number starts at `start`. */
  function IdAt(start: Id, n: nat): Id {
    if n == 0 then start else (start + n - 1) % LAP + 1
  }

  /** The position in 1..LAP that carries `id`. */
  function PosOf(start: Id, id: Id): nat
    requires id != INVALID_ID
  {
    (id - start - 1) % LAP + 1
  }

  lemma SuccIdAt(start: Id, n: nat)
    ensures Succ(IdAt(start, n)) == IdAt(start, n + 1)
    ensures IdAt(start, n + 1) != INVALID_ID
  {
  }

  lemma ModShift(x: int, k: int)
    ensures (x + LAP * k) % LAP == x % LAP
  {
  }

  lemma ModDifference(a: int, b: int)
    ensures (a % LAP - b) % LAP == (a - b) % LAP
  {
    ModShift(a % LAP - b, a / LAP);
  }

  lemma PlaceInLap(n: nat)
    requires 1 <= n
    ensures n <= LAP ==> (n - 1) % LAP + 1 == n
    ensures ((n - 1) % LAP + 1) % LAP == n % LAP
  {
    ModDifference(n - 1, -1);
  }

  lemma PosOfIdAt(start: Id, n: nat)
    requires 1 <= n
    ensures n <= LAP ==> PosOf(start, IdAt(start, n)) == n
    ensures PosOf(start, IdAt(start, n)) % LAP == n % LAP
  {
    ModDifference(start + n - 1, start);
    PlaceInLap(n);
  }

  lemma IdAtPosOf(start: Id, id: Id)
    requires id != INVALID_ID
    ensures IdAt(start, PosOf(start, id)) == id
    ensures 1 <= PosOf(start, id) <= LAP
  {
  }

  /** Two positions carry the same id exactly when they are a whole number of laps apart. */
  lemma SameIdIffWholeLaps(start: Id, u: nat, v: nat)
    requires 1 <= u && 1 <= v
    ensures IdAt(start, u) == IdAt(start, v) <==> (u - v) % LAP == 0
  {
  }

  /** Within a lap the ids of a stream never return to its starting sequence number. */
  lemma IdAtStart(start: Id, n: nat)
    requires 1 <= n < LAP
    ensures IdAt(start, n) != start
  {
  }

  /**
   Whether `newId` counts as later than `currentId`: the numeric order, turned around when the numeric
   distance exceeds half the id range.
   */
  predicate Newer(currentId: Id, newId: Id) {
    if currentId > newId then currentId - newId > HALF_ID else newId - currentId < HALF_ID
  }

  function UpdatedAck(currentId: Id, newId: Id): Id {
    if currentId == INVALID_ID || Newer(currentId, newId) then newId else currentId
  }

  /**
   The distances at which the comparison agrees with the order of positions. The range is not symmetric:
   one step more is tolerated in either direction when the ids wrap in between.
   */
  predicate InTrackingRange(start: Id, furthest: nat, u: nat) {
    if u <= furthest then
      furthest - u <= HALF_ID || (furthest - u == HALF_ID + 1 && IdAt(start, u) > IdAt(start, furthest))
    else
      u - furthest < HALF_ID || (u - furthest == HALF_ID && IdAt(start, u) < IdAt(start, furthest))
  }

  function Max(a: nat, b: nat): nat {
    if a < b then b else a
  }

  /** The ids of two positions less than a lap apart are as far apart, up to a lap when the ids wrap in between. */
  lemma IdsApart(start: Id, u: nat, v: nat)
    requires 1 <= u && 1 <= v && u < v + LAP && v < u + LAP
    ensures var a: int, b: int := IdAt(start, u), IdAt(start, v);
            b == a + v - u || b == a + v - u + LAP || b == a + v - u - LAP
    ensures IdAt(start, u) == IdAt(start, v) <==> u == v
  {
    SameIdIffWholeLaps(start, u, v);
  }

  /** The comparison in terms of the distance `d` between two positions. */
  lemma NewerIff(currentId: Id, newId: Id, d: int)
    requires currentId != INVALID_ID && newId != INVALID_ID && d != 0 && d < LAP && -d < LAP
    requires var apart: int := newId as int - currentId as int; apart == d || apart == d + LAP || apart == d - LAP
    ensures d < 0 ==>
              (Newer(currentId, newId) <==> !(-d <= HALF_ID || (-d == HALF_ID + 1 && newId > currentId)))
    ensures d > 0 ==> (Newer(currentId, newId) <==> d < HALF_ID || (d == HALF_ID && newId < currentId))
  {
  }

  /** One update follows the maximum of the positions exactly when the new position is in range. */
  lemma UpdateTracksMaxIff(start: Id, furthest: nat, u: nat)
    requires 1 <= furthest && 1 <= u
    requires u < furthest + LAP && furthest < u + LAP
    ensures UpdatedAck(IdAt(start, furthest), IdAt(start, u)) == IdAt(start, Max(furthest, u))
            <==> InTrackingRange(start, furthest, u)
  {
    IdsApart(start, furthest, u);
    var m: int, n: int := furthest, u;
    if m != n {
      NewerIff(IdAt(start, furthest), IdAt(start, u), n - m);
    }
  }

  /** The acknowledged id after the reliable packets at positions `us` have arrived, in that order. */
  function TrackedAck(start: Id, us: seq<nat>): Id {
    if us == [] then INVALID_ID
    else UpdatedAck(TrackedAck(start, us[..|us| - 1]), IdAt(start, us[|us| - 1]))
  }

  function Furthest(us: seq<nat>): nat {
    if us == [] then 0 else Max(Furthest(us[..|us| - 1]), us[|us| - 1])
  }

  lemma {:induction false} FurthestIsMaximum(us: seq<nat>, i: nat) returns (j: nat)
    requires i < |us|
    ensures us[i] <= Furthest(us)
    ensures j < |us| && us[j] == Furthest(us)
  {
    var n := |us| - 1;
    if n == 0 || Furthest(us[..n]) <= us[n] {
      j := n;
      if i < n {
        var k := FurthestIsMaximum(us[..n], i);
      }
    } else {
      j := FurthestIsMaximum(us[..n], if i < n then i else 0);
    }
  }

  /** Arrivals are real positions, each less than a whole lap away from the furthest before it. */
  ghost predicate WithinALap(us: seq<nat>) {
    us == [] ||
    (var front, u := us[..|us| - 1], us[|us| - 1];
     WithinALap(front) && 1 <= u &&
     (front != [] ==> u < Furthest(front) + LAP && Furthest(front) < u + LAP))
  }

  /** Each arrival after the first is in the tracking range of the furthest before it. */
  ghost predicate AllInTrackingRange(start: Id, us: seq<nat>) {
    |us| <= 1 ||
    (var front := us[..|us| - 1];
     AllInTrackingRange(start, front) && InTrackingRange(start, Furthest(front), us[|us| - 1]))
  }

  /** At every moment the acknowledged id is the id of the furthest position that has arrived. */
  ghost predicate AlwaysTracksFurthest(start: Id, us: seq<nat>) {
    us == [] ||
    (AlwaysTracksFurthest(start, us[..|us| - 1]) && TrackedAck(start, us) == IdAt(start, Furthest(us)))
  }

  /** Over runs of any length the wrapped comparison is a plain maximum, exactly within the range. */
  lemma {:induction false} TrackingRefinesMaximumIff(start: Id, us: seq<nat>)
    requires WithinALap(us)
    ensures AlwaysTracksFurthest(start, us) <==> AllInTrackingRange(start, us)
  {
    if us != [] {
      var front, u := us[..|us| - 1], us[|us| - 1];
      TrackingRefinesMaximumIff(start, front);
      assert front == [] ==> TrackedAck(start, us) == IdAt(start, u);
      if front != [] && AlwaysTracksFurthest(start, front) {
        assert 1 <= front[|front| - 1] <= Furthest(front);
        UpdateTracksMaxIff(start, Furthest(front), u);
      }
    }
  }
}
