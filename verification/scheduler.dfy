/**
 * The cron job of backend/src/index.ts that returns expired picks to the sea: one bulk UPDATE
 * over every bottle row that is `picked` with `picked_at` strictly before `now - 12 h`.
 *
 * Timestamps are compared as instants (milliseconds). The deployed code compares them as text
 * in two different formats; `Timestamps` models that comparison as written.
 */
module Scheduler {
  import opened Common
  import opened Bottles

  /** The sweep's condition `status = 'picked' AND picked_at < now - 12h`. A NULL picked_at
      compares as unknown, so such a row is never selected. */
  predicate Expired(b: Bottle, now: int)
  {
    b.status == Picked && b.pickedAt.Some? && b.pickedAt.value < now - LeaseMs
  }

  /** The row after the sweep: an expired pick floats again, without picker or picked_at. */
  function Reclaimed(b: Bottle, now: int): Bottle
  {
    if Expired(b, now) then Bottle(b.creator, None, Floating, None) else b
  }

  /** The whole table after one sweep at time `now`. */
  function Sweep(m: map<BottleId, Bottle>, now: int): (r: map<BottleId, Bottle>)
    ensures r.Keys == m.Keys
    ensures forall id :: id in m ==> r[id].creator == m[id].creator
    ensures forall id :: id in m && r[id] != m[id] ==> Expired(m[id], now)
    ensures forall id :: id in m && Expired(m[id], now) ==> r[id] == Bottle(m[id].creator, None, Floating, None)
  {
    map id | id in m :: Reclaimed(m[id], now)
  }

  /** Floating and replied bottles are never touched; a replied bottle keeps its picker. */
  lemma SweepSparesUnpicked(m: map<BottleId, Bottle>, now: int, id: BottleId)
    requires id in m && m[id].status != Picked
    ensures Sweep(m, now)[id] == m[id]
  {
  }

  /** The lease boundary: a pick exactly 12 h old stays picked (the comparison is strict), one a
      millisecond older is reclaimed. */
  lemma LeaseBoundary(b: Bottle, t: int)
    requires b.status == Picked && b.pickedAt == Some(t)
    ensures Reclaimed(b, t + LeaseMs) == b
    ensures Reclaimed(b, t + LeaseMs + 1) == Bottle(b.creator, None, Floating, None)
  {
  }

  /** Running the sweep twice at the same `now` is running it once. */
  lemma {:induction false} SweepIdempotent(m: map<BottleId, Bottle>, now: int)
    ensures Sweep(Sweep(m, now), now) == Sweep(m, now)
  {
    var once := Sweep(m, now);
    forall id | id in once ensures Sweep(once, now)[id] == once[id] {
      assert !Expired(once[id], now);
    }
  }

  /** The sweep keeps invariants I1-I3: it only turns picked rows into floating ones. */
  lemma SweepKeepsWellFormed(m: map<BottleId, Bottle>, now: int)
    requires WellFormed(m)
    ensures WellFormed(Sweep(m, now))
  {
    var r := Sweep(m, now);
    forall a, b | a in r && b in r && r[a].status == Picked && r[b].status == Picked &&
      r[a].picker == r[b].picker
      ensures a == b
    {
      assert r[a] == m[a] && r[b] == m[b];
    }
  }

  /** `releaseExpiredBottles`: the UPDATE visits every row and rewrites the expired ones. */
  method ReleaseExpiredBottles(e: Exchange, now: int)
    requires e.Valid()
    modifies e
    ensures e.Valid()
    ensures e.bottles == Sweep(old(e.bottles), now)
    ensures e.threads == old(e.threads) && e.images == old(e.images) && e.nextId == old(e.nextId)
  {
    var todo := e.bottles.Keys;
    while todo != {}
      invariant todo <= e.bottles.Keys
      invariant e.bottles.Keys == old(e.bottles).Keys
      invariant forall id :: id in e.bottles ==>
        e.bottles[id] == if id in todo then old(e.bottles)[id] else Reclaimed(old(e.bottles)[id], now)
      invariant e.threads == old(e.threads) && e.images == old(e.images) && e.nextId == old(e.nextId)
      decreases todo
    {
      var id :| id in todo;
      if Expired(e.bottles[id], now) {
        e.bottles := e.bottles[id := Bottle(e.bottles[id].creator, None, Floating, None)];
      }
      todo := todo - {id};
    }
    SweepKeepsWellFormed(old(e.bottles), now);
  }
}
