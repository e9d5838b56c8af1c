/** What parking_process_queue does as a whole, although it searches from spot 0 each time. */
module Draining {
  import opened Words
  import opened Vehicles
  import opened Parkings
  import opened Invariants

  /** The free spots from i on, lowest first. */
  function FreeSpots(spots: seq<Option<nat>>, i: nat): seq<nat>
    requires i <= |spots|
    decreases |spots| - i
  {
    if i == |spots| then []
    else if spots[i].None? then [i] + FreeSpots(spots, i + 1)
    else FreeSpots(spots, i + 1)
  }

  /** x is not one of the first m entries. */
  predicate NotAmong(xs: seq<nat>, m: nat, x: nat)
    requires m <= |xs|
  {
    forall j :: 0 <= j < m ==> xs[j] != x
  }

  lemma {:induction false} FreeSpotsAreFree(spots: seq<Option<nat>>, i: nat)
    requires i <= |spots|
    ensures forall k :: 0 <= k < |FreeSpots(spots, i)| ==>
              i <= FreeSpots(spots, i)[k] < |spots| && spots[FreeSpots(spots, i)[k]].None?
    ensures forall j, k :: 0 <= j < k < |FreeSpots(spots, i)| ==>
              FreeSpots(spots, i)[j] < FreeSpots(spots, i)[k]
    decreases |spots| - i
  {
    if i < |spots| {
      FreeSpotsAreFree(spots, i + 1);
    }
  }

  lemma {:induction false} FirstIsLowest(spots: seq<Option<nat>>, i: nat)
    requires i <= |spots|
    ensures FreeSpots(spots, i) == [] ==> FirstFree(spots, i) == -1
    ensures FreeSpots(spots, i) != [] ==> FirstFree(spots, i) == FreeSpots(spots, i)[0]
    decreases |spots| - i
  {
    if i < |spots| {
      FirstIsLowest(spots, i + 1);
    }
  }

  /** Filling a spot below i does not matter from i on. */
  lemma {:induction false} FreeSpotsBeyond(spots: seq<Option<nat>>, i: nat, p: nat, key: nat)
    requires p < i <= |spots|
    ensures FreeSpots(spots[p := Some(key)], i) == FreeSpots(spots, i)
    decreases |spots| - i
  {
    if i < |spots| {
      FreeSpotsBeyond(spots, i + 1, p, key);
    }
  }

  /** Filling the lowest free spot removes it from the front of the list. */
  lemma {:induction false} FillingTheLowest(spots: seq<Option<nat>>, i: nat, key: nat)
    requires i <= |spots| && FirstFree(spots, i) >= 0
    ensures FreeSpots(spots, i) != []
    ensures FreeSpots(spots[FirstFree(spots, i) := Some(key)], i) == FreeSpots(spots, i)[1..]
    decreases |spots| - i
  {
    if spots[i].None? {
      FreeSpotsBeyond(spots, i + 1, i, key);
    } else {
      FillingTheLowest(spots, i + 1, key);
    }
  }

  lemma {:induction false} FreePlusOccupied(spots: seq<Option<nat>>, i: nat)
    requires i <= |spots|
    ensures |FreeSpots(spots, i)| + OccupiedCount(spots, |spots|) - OccupiedCount(spots, i) == |spots| - i
    decreases |spots| - i
  {
    if i < |spots| {
      FreePlusOccupied(spots, i + 1);
    }
  }

  /** A lot whose count is right and whose queue names no vehicle twice. */
  ghost predicate Sound(lot: Lot) {
    && lot.occupied == OccupiedCount(lot.spots, |lot.spots|)
    && |lot.spots| < TWO32
    && forall j, k :: 0 <= j < k < |lot.waiting| ==> lot.waiting[j] != lot.waiting[k]
  }

  /** The first m waiting vehicles are in the m lowest free spots, in order; the other spots
      are as they were. */
  ghost predicate SpotsFilled(lot: Lot, m: nat, spots: seq<Option<nat>>) {
    var free := FreeSpots(lot.spots, 0);
    && m <= |lot.waiting| && m <= |free| && |spots| == |lot.spots|
    && (forall j :: 0 <= j < m ==> free[j] < |spots| && spots[free[j]] == Some(lot.waiting[j]))
    && (forall p :: 0 <= p < |spots| && NotAmong(free, m, p) ==> spots[p] == lot.spots[p])
  }

  /** Their records say so; the other records are as they were. */
  ghost predicate RecordsParked(lot: Lot, vs: seq<VehicleRec>, now: u32, m: nat, vs1: seq<VehicleRec>)
    requires Registered(lot, |vs|)
  {
    var free := FreeSpots(lot.spots, 0);
    && m <= |lot.waiting| && m <= |free| && |vs1| == |vs|
    && (forall j :: 0 <= j < m ==> vs1[lot.waiting[j]] == vs[lot.waiting[j]].Park(free[j], now))
    && (forall i :: 0 <= i < |vs| && NotAmong(lot.waiting, m, i) ==> vs1[i] == vs[i])
  }

  lemma SoundStep(lot: Lot, vs: seq<VehicleRec>, now: u32)
    requires Registered(lot, |vs|) && Sound(lot) && CanDrain(lot)
    ensures Sound(DrainOne(lot, vs, now).0) && Registered(DrainOne(lot, vs, now).0, |vs|)
    ensures FreeSpots(lot.spots, 0) != []
    ensures FreeSpots(DrainOne(lot, vs, now).0.spots, 0) == FreeSpots(lot.spots, 0)[1..]
    ensures FreeSpots(lot.spots, 0)[0] == FirstFree(lot.spots, 0)
    ensures DrainOne(lot, vs, now).0.occupied == lot.occupied + 1
  {
    FirstIsLowest(lot.spots, 0);
    FillingTheLowest(lot.spots, 0, lot.waiting[0]);
    OccupiedCountUpdate(lot.spots, |lot.spots|, FirstFree(lot.spots, 0), Some(lot.waiting[0]));
  }

  lemma NotAmongTail(xs: seq<nat>, m: nat, x: nat)
    requires m < |xs|
    ensures NotAmong(xs, m + 1, x) <==> xs[0] != x && NotAmong(xs[1..], m, x)
  {
  }

  lemma SpotsFilledStep(lot: Lot, vs: seq<VehicleRec>, now: u32, m: nat, spots: seq<Option<nat>>)
    requires Registered(lot, |vs|) && Sound(lot) && CanDrain(lot)
    requires SpotsFilled(DrainOne(lot, vs, now).0, m, spots)
    ensures SpotsFilled(lot, m + 1, spots)
  {
    SoundStep(lot, vs, now);
    FreeSpotsAreFree(lot.spots, 0);
    var lot1 := DrainOne(lot, vs, now).0;
    var free := FreeSpots(lot.spots, 0);
    hide FreeSpots, Sound, FirstFree, NotAmong;
    forall p | 0 <= p < |spots|
      ensures NotAmong(free, m + 1, p) <==> free[0] != p && NotAmong(free[1..], m, p)
    {
      NotAmongTail(free, m, p);
    }
    assert NotAmong(free[1..], m, free[0]) by { LowestIsNotAmongRest(free, m); }
    forall j | 0 <= j < m + 1
      ensures free[j] < |spots| && spots[free[j]] == Some(lot.waiting[j])
    {
      if j > 0 {
        assert free[1..][j - 1] == free[j];
      }
    }
  }

  lemma LowestIsNotAmongRest(xs: seq<nat>, m: nat)
    requires m < |xs| && forall j, k :: 0 <= j < k < |xs| ==> xs[j] != xs[k]
    ensures NotAmong(xs[1..], m, xs[0])
  {
  }

  lemma RecordsParkedStep(lot: Lot, vs: seq<VehicleRec>, now: u32, m: nat, vs2: seq<VehicleRec>)
    requires Registered(lot, |vs|) && Sound(lot) && CanDrain(lot)
    requires Registered(DrainOne(lot, vs, now).0, |vs|)
    requires RecordsParked(DrainOne(lot, vs, now).0, DrainOne(lot, vs, now).1, now, m, vs2)
    ensures RecordsParked(lot, vs, now, m + 1, vs2)
  {
    SoundStep(lot, vs, now);
    var (lot1, vs1) := DrainOne(lot, vs, now);
    var free := FreeSpots(lot.spots, 0);
    hide FreeSpots, FirstFree, NotAmong;
    forall i | 0 <= i < |vs|
      ensures NotAmong(lot.waiting, m + 1, i) <==> lot.waiting[0] != i && NotAmong(lot.waiting[1..], m, i)
    {
      NotAmongTail(lot.waiting, m, i);
    }
    assert NotAmong(lot.waiting[1..], m, lot.waiting[0]) by { LowestIsNotAmongRest(lot.waiting, m); }
    forall j | 0 <= j < m + 1
      ensures vs2[lot.waiting[j]] == vs[lot.waiting[j]].Park(free[j], now)
    {
      if j > 0 {
        assert lot1.waiting[j - 1] == lot.waiting[j] && free[1..][j - 1] == free[j];
        assert lot.waiting[0] != lot.waiting[j];
      }
    }
  }

  /** Draining parks as many vehicles as there are both vehicles waiting and spots free: the
      oldest ones, in order, in the lowest free spots, in order. Afterwards nobody waits or no
      spot is free. */
  lemma {:induction false} DrainsInFull(lot: Lot, vs: seq<VehicleRec>, now: u32)
    requires Registered(lot, |vs|) && Sound(lot)
    ensures var r := Drain(lot, vs, now);
            && SpotsFilled(lot, r.2, r.0.spots) && RecordsParked(lot, vs, now, r.2, r.1)
            && r.0.waiting == lot.waiting[r.2..] && r.0.occupied == lot.occupied + r.2
            && (r.2 == |lot.waiting| || r.2 == |FreeSpots(lot.spots, 0)|)
            && (r.0.waiting == [] || r.0.occupied == |r.0.spots|)
    decreases |lot.waiting|
  {
    FreePlusOccupied(lot.spots, 0);
    FirstIsLowest(lot.spots, 0);
    if CanDrain(lot) {
      SoundStep(lot, vs, now);
      var (lot1, vs1) := DrainOne(lot, vs, now);
      DrainsInFull(lot1, vs1, now);
      var r := Drain(lot1, vs1, now);
      SpotsFilledStep(lot, vs, now, r.2, r.0.spots);
      RecordsParkedStep(lot, vs, now, r.2, r.1);
    }
  }
}
