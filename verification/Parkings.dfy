/** server/parking.c: the spots, first-fit parking, departures and draining the queue. */
module Parkings {
  import opened Words
  import opened Configuration
  import opened Vehicles
  import opened Queues

  /** The value of a parking lot. Vehicles are named by their position in the simulation's
      vehicle array. */
  datatype Lot = Lot(spots: seq<Option<nat>>, occupied: u32, waiting: seq<nat>, mode: u32)

  /** The lowest free spot from i on, or -1. */
  function FirstFree(spots: seq<Option<nat>>, i: nat): (r: int)
    requires i <= |spots|
    ensures r == -1 ==> forall k :: i <= k < |spots| ==> spots[k].Some?
    ensures r != -1 ==> i <= r < |spots| && spots[r].None? && forall k :: i <= k < r ==> spots[k].Some?
    decreases |spots| - i
  {
    if i == |spots| then -1
    else if spots[i].None? then i
    else FirstFree(spots, i + 1)
  }

  function TakeSpot(lot: Lot, spot: int, key: nat): Lot
    requires 0 <= spot < |lot.spots|
  {
    lot.(spots := lot.spots[spot := Some(key)], occupied := Wrap(lot.occupied + 1))
  }

  /** parking_try_park: 1 parked, 0 waiting, -1 turned away. */
  function TryParkResult(lot: Lot, v: VehicleRec, key: nat, now: u32): (Lot, VehicleRec, int) {
    var spot := FirstFree(lot.spots, 0);
    if spot >= 0 then (TakeSpot(lot, spot, key), v.Park(spot, now), 1)
    else if lot.mode == WITH_WAIT then (lot.(waiting := lot.waiting + [key]), v.Wait(now), 0)
    else (lot, v.Leave(), -1)
  }

  /** parking_depart frees whatever spot the vehicle names, whoever is recorded there. */
  function DepartResult(lot: Lot, v: VehicleRec): (Lot, VehicleRec, int) {
    if v.spot < 0 || v.spot >= |lot.spots| then (lot, v, -1)
    else (lot.(spots := lot.spots[v.spot := None], occupied := Wrap(lot.occupied - 1)), v.Leave(), 0)
  }

  /** The lots agree but for spot p. */
  predicate SameBut(spots: seq<Option<nat>>, others: seq<Option<nat>>, p: int) {
    |spots| == |others| && forall k :: 0 <= k < |spots| && k != p ==> spots[k] == others[k]
  }

  predicate Free(lot: Lot, p: int) {
    0 <= p < |lot.spots| && lot.spots[p].None?
  }

  /** What trying to park comes to: the vehicle parks exactly if a spot is free, and then in the
      lowest one; otherwise it joins the end of the queue in the waiting mode and is turned away in
      the other. Nothing else changes. */
  lemma TryParkMeans(lot: Lot, v: VehicleRec, key: nat, now: u32)
    ensures var (l, w, result) := TryParkResult(lot, v, key, now);
            && (result == 1 <==> exists p :: Free(lot, p))
            && (result == 1 ==>
                  && Free(lot, w.spot) && (forall p :: 0 <= p < w.spot ==> !Free(lot, p))
                  && l.spots[w.spot] == Some(key) && SameBut(l.spots, lot.spots, w.spot)
                  && l.occupied == Wrap(lot.occupied + 1) && l.waiting == lot.waiting
                  && w == v.(state := Parked, spot := w.spot, departureTime := DepartureAt(now, v.parkingDuration)))
            && (result == 0 ==>
                  && lot.mode == 1 && l == lot.(waiting := lot.waiting + [key])
                  && w == v.(state := Waiting, waitStartTime := now))
            && (result == -1 ==> lot.mode != 1 && l == lot && w == v.(state := Left, spot := -1))
            && l.mode == lot.mode && -1 <= result <= 1
  {
    if p :| Free(lot, p) {
      assert FirstFree(lot.spots, 0) >= 0;
    }
    var r := FirstFree(lot.spots, 0);
    assert r >= 0 ==> Free(lot, r);
  }

  /** And departing: the named spot becomes free and the vehicle leaves; a vehicle that names no
      spot of the lot stays as it is. */
  lemma DepartMeans(lot: Lot, v: VehicleRec)
    ensures var (l, w, result) := DepartResult(lot, v);
            if 0 <= v.spot < |lot.spots| then
              && result == 0 && l.spots[v.spot].None? && SameBut(l.spots, lot.spots, v.spot)
              && l.occupied == Wrap(lot.occupied - 1) && l.waiting == lot.waiting && l.mode == lot.mode
              && w == v.(state := Left, spot := -1)
            else result == -1 && l == lot && w == v
  {
  }

  predicate CanDrain(lot: Lot) {
    |lot.waiting| > 0 && lot.occupied < |lot.spots| && FirstFree(lot.spots, 0) >= 0
  }

  /** One round of parking_process_queue: the oldest waiting vehicle takes the lowest free
      spot. */
  function DrainOne(lot: Lot, vs: seq<VehicleRec>, now: u32): (r: (Lot, seq<VehicleRec>))
    requires CanDrain(lot) && lot.waiting[0] < |vs|
    ensures |r.1| == |vs| && r.0.waiting == lot.waiting[1..]
    ensures |r.0.spots| == |lot.spots| && r.0.mode == lot.mode
  {
    var spot := FirstFree(lot.spots, 0);
    var key := lot.waiting[0];
    (TakeSpot(lot.(waiting := lot.waiting[1..]), spot, key), vs[key := vs[key].Park(spot, now)])
  }

  predicate Registered(lot: Lot, n: nat) {
    forall i :: 0 <= i < |lot.waiting| ==> lot.waiting[i] < n
  }

  /** parking_process_queue: the new lot, the new records and the number parked. */
  function Drain(lot: Lot, vs: seq<VehicleRec>, now: u32): (r: (Lot, seq<VehicleRec>, nat))
    requires Registered(lot, |vs|)
    ensures |r.1| == |vs| && Registered(r.0, |vs|)
    ensures |r.0.spots| == |lot.spots| && r.0.mode == lot.mode
    ensures r.2 <= |lot.waiting| && r.0.waiting == lot.waiting[r.2..]
    decreases |lot.waiting|
  {
    if !CanDrain(lot) then (lot, vs, 0)
    else
      var (lot1, vs1) := DrainOne(lot, vs, now);
      var r := Drain(lot1, vs1, now);
      (r.0, r.1, r.2 + 1)
  }

  /** Draining from (lot, vs) is what remains after count rounds that led to (lot1, vs1). */
  predicate Drained(lot: Lot, vs: seq<VehicleRec>, now: u32, lot1: Lot, vs1: seq<VehicleRec>, count: nat)
  {
    && Registered(lot, |vs|) && Registered(lot1, |vs1|)
    && var r := Drain(lot1, vs1, now);
       Drain(lot, vs, now) == (r.0, r.1, r.2 + count)
  }

  lemma DrainedStep(lot: Lot, vs: seq<VehicleRec>, now: u32, lot1: Lot, vs1: seq<VehicleRec>, count: nat)
    requires Drained(lot, vs, now, lot1, vs1, count) && CanDrain(lot1)
    ensures lot1.waiting[0] < |vs1|
    ensures Drained(lot, vs, now, DrainOne(lot1, vs1, now).0, DrainOne(lot1, vs1, now).1, count + 1)
  {
  }

  predicate DrainsTo(lot: Lot, vs: seq<VehicleRec>, now: u32, lot1: Lot, vs1: seq<VehicleRec>, count: nat)
  {
    Registered(lot, |vs|) && Drain(lot, vs, now) == (lot1, vs1, count)
  }

  lemma DrainedStart(lot: Lot, vs: seq<VehicleRec>, now: u32)
    requires Registered(lot, |vs|)
    ensures Drained(lot, vs, now, lot, vs, 0)
  {
  }

  lemma DrainedEnd(lot: Lot, vs: seq<VehicleRec>, now: u32, lot1: Lot, vs1: seq<VehicleRec>, count: nat)
    requires Drained(lot, vs, now, lot1, vs1, count) && !CanDrain(lot1)
    ensures DrainsTo(lot, vs, now, lot1, vs1, count)
  {
  }

  // ---------------------------------------------------------------- the mutable lot

  datatype ParkingSpot = ParkingSpot(id: int, occupied: bool, vehicle: Vehicle?)

  class Parking {
    const spots: array<ParkingSpot>
    var occupiedCount: u32
    const queue: WaitingQueue
    const mode: u32

    ghost predicate Valid()
      reads this, spots, queue, queue.nodes
    {
      && queue.Valid() && |queue.nodes| < TWO32
      && 0 < spots.Length <= MAX_PARKING_SPOTS
      && (forall i :: 0 <= i < spots.Length ==>
            && spots[i].id == i
            && (spots[i].occupied <==> spots[i].vehicle != null)
            && (spots[i].vehicle != null ==> spots[i].vehicle.Key() >= 0))
      && (forall i :: 0 <= i < |queue.nodes| ==> queue.nodes[i].vehicle.Key() >= 0)
    }

    /** The objects a lot owns. */
    ghost function Footprint(): set<object>
      reads this, queue
    {
      {this, spots, queue} + (set n | n in queue.nodes)
    }

    ghost function SpotValue(s: ParkingSpot): Option<nat> {
      if s.vehicle == null || s.vehicle.Key() < 0 then None else Some(s.vehicle.Key())
    }

    ghost function Spots(): (s: seq<Option<nat>>)
      reads this, spots
      ensures |s| == spots.Length
    {
      seq(spots.Length, i requires 0 <= i < spots.Length reads this, spots => SpotValue(spots[i]))
    }

    ghost function Waiting(): (s: seq<nat>)
      requires Valid()
      reads this, spots, queue, queue.nodes
      ensures |s| == |queue.nodes|
    {
      seq(|queue.nodes|, i requires 0 <= i < |queue.nodes| && queue.nodes[i].vehicle.Key() >= 0 reads queue
          => queue.nodes[i].vehicle.Key() as nat)
    }

    ghost function Value(): Lot
      requires Valid()
      reads this, spots, queue, queue.nodes
    {
      Lot(Spots(), occupiedCount, Waiting(), mode)
    }

    constructor (totalSpots: u32, mode: u32)
      requires 0 < totalSpots <= MAX_PARKING_SPOTS
      ensures Valid() && fresh(Footprint()) && spots.Length == totalSpots && queue.nodes == []
      ensures Value() == Lot(seq(totalSpots, _ => None), 0, [], mode)
    {
      spots := new ParkingSpot[totalSpots](i => ParkingSpot(i, false, null));
      queue := new WaitingQueue();
      occupiedCount := 0;
      this.mode := mode;
    }

    /** parking_create: null exactly for a number of spots out of range. */
    static method Create(totalSpots: u32, mode: u32) returns (parking: Parking?)
      ensures parking == null <==> totalSpots == 0 || totalSpots > MAX_PARKING_SPOTS
      ensures parking != null ==> parking.Valid() && fresh(parking) && fresh(parking.Footprint())
      ensures parking != null ==> parking.Value() == Lot(seq(totalSpots, _ => None), 0, [], mode)
    {
      if totalSpots == 0 || totalSpots > MAX_PARKING_SPOTS {
        return null;
      }
      parking := new Parking(totalSpots, mode);
    }

    /** The search loop shared by parking and draining. */
    method FindFree() returns (spotId: int)
      requires Valid()
      ensures spotId == FirstFree(Spots(), 0)
    {
      spotId := -1;
      var i := 0;
      while i < spots.Length
        invariant 0 <= i <= spots.Length
        invariant FirstFree(Spots(), 0) == FirstFree(Spots(), i)
      {
        if !spots[i].occupied {
          return i;
        }
        i := i + 1;
      }
    }

    /** The assignments by which a found spot is given to a vehicle. */
    method Occupy(spotId: int, vehicle: Vehicle, now: u32)
      requires Valid() && 0 <= spotId < spots.Length && vehicle.Key() >= 0
      modifies spots, this, vehicle
      ensures Valid() && Value() == TakeSpot(old(Value()), spotId, vehicle.Key())
      ensures vehicle.Rec() == old(vehicle.Rec()).Park(spotId, now)
    {
      spots[spotId] := spots[spotId].(occupied := true, vehicle := vehicle);
      occupiedCount := Wrap(occupiedCount + 1);
      vehicle.Park(spotId, now);
      assert Spots() == old(Spots())[spotId := Some(vehicle.Key())];
    }

    method JoinQueue(vehicle: Vehicle)
      requires Valid() && vehicle.Key() >= 0 && |queue.nodes| < TWO32 - 1
      modifies queue, queue.rear
      ensures Valid() && Value() == old(Value()).(waiting := old(Value()).waiting + [vehicle.Key() as nat])
      ensures queue.rear != null && fresh(queue.rear) && queue.rear.vehicle == vehicle
      ensures queue.nodes == old(queue.nodes) + [queue.rear]
    {
      queue.Enqueue(vehicle);
      assert Waiting() == old(Waiting()) + [vehicle.Key() as nat];
      assert Spots() == old(Spots());
    }

    method TryPark(vehicle: Vehicle, now: u32) returns (result: int)
      requires Valid() && vehicle.Key() >= 0 && |queue.nodes| < TWO32 - 1
      modifies this, spots, queue, queue.rear, vehicle
      ensures Valid()
      ensures queue.nodes == old(queue.nodes)
              || (queue.rear != null && fresh(queue.rear) && queue.rear.vehicle == vehicle
                  && queue.nodes == old(queue.nodes) + [queue.rear])
      ensures (Value(), vehicle.Rec(), result)
              == TryParkResult(old(Value()), old(vehicle.Rec()), vehicle.Key(), now)
    {
      hide FirstFree, TakeSpot, Wrap;
      var spotId := FindFree();
      if spotId >= 0 {
        Occupy(spotId, vehicle, now);
        return 1;
      }
      if mode == WITH_WAIT {
        vehicle.Wait(now);
        JoinQueue(vehicle);
        return 0;
      } else {
        vehicle.Leave();
        return -1;
      }
    }

    method Depart(vehicle: Vehicle) returns (result: int)
      requires Valid()
      modifies this, spots, vehicle
      ensures Valid()
      ensures (Value(), vehicle.Rec(), result) == DepartResult(old(Value()), old(vehicle.Rec()))
    {
      var spotId := vehicle.parkingSpotId;
      if spotId < 0 || spotId >= spots.Length {
        return -1;
      }
      spots[spotId] := spots[spotId].(occupied := false, vehicle := null);
      occupiedCount := Wrap(occupiedCount - 1);
      vehicle.Leave();
      assert Spots() == old(Spots())[spotId := None];
      assert Waiting() == old(Waiting());
      result := 0;
    }

    /** Every queued vehicle is the one the table lists under its key. */
    ghost predicate QueueIn(table: seq<Vehicle>)
      reads this, queue
    {
      && (forall i :: 0 <= i < |table| ==> table[i].Key() == i)
      && (forall i :: 0 <= i < |queue.nodes| ==>
            0 <= queue.nodes[i].vehicle.Key() < |table| && table[queue.nodes[i].vehicle.Key()] == queue.nodes[i].vehicle)
    }

    method PopWaiting(ghost table: seq<Vehicle>) returns (vehicle: Vehicle)
      requires Valid() && QueueIn(table) && queue.nodes != []
      modifies queue
      ensures Valid() && QueueIn(table) && queue.nodes == old(queue.nodes)[1..]
      ensures Value() == old(Value()).(waiting := old(Value()).waiting[1..])
      ensures vehicle.Key() == old(Value()).waiting[0] < |table| && table[vehicle.Key()] == vehicle
    {
      vehicle := queue.Dequeue();
      assert Waiting() == old(Waiting())[1..];
      assert Spots() == old(Spots());
    }

    /** One admission: the assignments of the draining loop's body. */
    method AdmitOldest(spotId: int, now: u32, ghost table: seq<Vehicle>)
      requires Valid() && QueueIn(table) && queue.nodes != []
      requires CanDrain(Value()) && spotId == FirstFree(Spots(), 0)
      modifies this, spots, queue, set v | v in table
      ensures Valid() && QueueIn(table) && queue.nodes == old(queue.nodes)[1..]
      ensures (Value(), Recs(table)) == DrainOne(old(Value()), old(Recs(table)), now)
    {
      hide FirstFree, TakeSpot;
      var vehicle := PopWaiting(table);
      Occupy(spotId, vehicle, now);
      assert Recs(table) == old(Recs(table))[vehicle.Key() := old(vehicle.Rec()).Park(spotId, now)];
    }

    lemma QueueRegistered(table: seq<Vehicle>)
      requires Valid() && QueueIn(table)
      ensures Registered(Value(), |table|)
    {
    }

    /** What the draining loop's guard says about the lot. */
    lemma GuardMeaning()
      requires Valid()
      ensures queue.size > 0 <==> queue.nodes != []
      ensures CanDrain(Value()) <==> queue.size > 0 && occupiedCount < spots.Length && FirstFree(Spots(), 0) >= 0
    {
      hide FirstFree;
    }

    method ProcessQueue(now: u32, ghost table: seq<Vehicle>) returns (parkedCount: nat)
      requires Valid() && QueueIn(table)
      modifies this, spots, queue, set v | v in table
      ensures Valid() && QueueIn(table)
      ensures |queue.nodes| <= old(|queue.nodes|) && forall n :: n in queue.nodes ==> n in old(queue.nodes)
      ensures DrainsTo(old(Value()), old(Recs(table)), now, Value(), Recs(table), parkedCount)
    {
      hide DrainsTo, Drained, DrainOne, CanDrain, FirstFree, Recs, Valid, QueueIn, Registered;
      QueueRegistered(table);
      parkedCount := 0;
      ghost var lot, vs := Value(), Recs(table);
      DrainedStart(lot, vs, now);
      GuardMeaning();
      while queue.size > 0 && occupiedCount < spots.Length
        invariant Valid() && QueueIn(table)
        invariant |queue.nodes| <= old(|queue.nodes|) && forall n :: n in queue.nodes ==> n in old(queue.nodes)
        invariant lot == Value() && vs == Recs(table)
        invariant queue.size > 0 <==> queue.nodes != []
        invariant CanDrain(lot) <==> queue.size > 0 && occupiedCount < spots.Length && FirstFree(Spots(), 0) >= 0
        invariant Drained(old(Value()), old(Recs(table)), now, lot, vs, parkedCount)
        decreases |queue.nodes|
      {
        var spotId := FindFree();
        if spotId < 0 {
          break;
        }
        DrainedStep(old(Value()), old(Recs(table)), now, lot, vs, parkedCount);
        AdmitOldest(spotId, now, table);
        GuardMeaning();
        lot, vs := Value(), Recs(table);
        parkedCount := parkedCount + 1;
      }
      DrainedEnd(old(Value()), old(Recs(table)), now, lot, vs, parkedCount);
    }

    method GetFreeSpots() returns (free: u32)
      requires Valid()
      ensures free == Wrap(|Value().spots| - Value().occupied)
    {
      free := Wrap(spots.Length - occupiedCount);
    }

    method GetWaitingCount() returns (count: u32)
      requires Valid()
      ensures count == |Value().waiting|
    {
      count := queue.size;
    }
  }
}
