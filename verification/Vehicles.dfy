/** server/vehicle.c: the vehicle record and the functions that update it. */
module Vehicles {
  import opened Words

  /** The departure time of a vehicle that parks now: a sum reduced modulo 2^32. */
  function DepartureAt(now: u32, duration: u32): (t: u32)
    ensures t == if now + duration < TWO32 then now + duration else now + duration - TWO32
  {
    Wrap(now + duration)
  }

  datatype VehicleState = Waiting | Parked | Left

  /** The value of a vehicle's fields. A spot of -1 means "no spot". */
  datatype VehicleRec = VehicleRec(
    id: u32, arrivalTime: u32, parkingDuration: u32, departureTime: u32,
    waitStartTime: u32, state: VehicleState, spot: int)
  {
    function Park(spotId: int, now: u32): VehicleRec {
      this.(state := Parked, spot := spotId, departureTime := DepartureAt(now, parkingDuration))
    }

    function Wait(now: u32): VehicleRec {
      this.(state := Waiting, waitStartTime := now)
    }

    function Leave(): VehicleRec {
      this.(state := Left, spot := -1)
    }

    predicate ShouldDepart(now: u32) {
      state.Parked? && now >= departureTime
    }

    /** The tick at which a vehicle that has parked did so. Leaving keeps both fields, so
        this stays readable afterwards. */
    function ParkTick(): int {
      departureTime - parkingDuration
    }

    /** Turned away on arrival: it left without a departure time. */
    predicate Refused() {
      state.Left? && departureTime == 0
    }

    /** It has had a spot, now or in the past. */
    predicate Served() {
      !state.Waiting? && !Refused()
    }
  }

  function Created(id: u32, now: u32, duration: u32): VehicleRec {
    VehicleRec(id, now, duration, 0, 0, Waiting, -1)
  }

  class Vehicle {
    const id: u32
    const arrivalTime: u32
    const parkingDuration: u32
    var departureTime: u32
    var waitStartTime: u32
    var state: VehicleState
    var parkingSpotId: int

    ghost function Rec(): VehicleRec
      reads this
    {
      VehicleRec(id, arrivalTime, parkingDuration, departureTime, waitStartTime, state, parkingSpotId)
    }

    /** Where the simulation's vehicle array keeps this vehicle: ids are handed out from 1. */
    ghost function Key(): int {
      id - 1
    }

    constructor (id: u32, now: u32, duration: u32)
      ensures Rec() == Created(id, now, duration)
    {
      this.id, arrivalTime, parkingDuration := id, now, duration;
      departureTime, waitStartTime := 0, 0;
      state, parkingSpotId := Waiting, -1;
    }

    method Park(spotId: int, now: u32)
      modifies this
      ensures Rec() == old(Rec()).Park(spotId, now)
    {
      state := Parked;
      parkingSpotId := spotId;
      departureTime := DepartureAt(now, parkingDuration);
    }

    method Wait(now: u32)
      modifies this
      ensures Rec() == old(Rec()).Wait(now)
    {
      state := Waiting;
      waitStartTime := now;
    }

    method Leave()
      modifies this
      ensures Rec() == old(Rec()).Leave()
    {
      state := Left;
      parkingSpotId := -1;
    }

    method ShouldDepart(now: u32) returns (yes: bool)
      ensures yes <==> Rec().ShouldDepart(now)
    {
      yes := false;
      if state == Parked && now >= departureTime {
        yes := true;
      }
    }
  }

  /** The records of a table of vehicles. */
  ghost function Recs(table: seq<Vehicle>): (rs: seq<VehicleRec>)
    reads table
    ensures |rs| == |table|
  {
    seq(|table|, i requires 0 <= i < |table| reads table => table[i].Rec())
  }

  /** A vehicle just parked is due at once unless the sum of the tick and its parking time fits
      in 32 bits. */
  lemma ParkedStaysIffNoWrap(v: VehicleRec, spotId: int, now: u32)
    requires v.parkingDuration > 0
    ensures !v.Park(spotId, now).ShouldDepart(now) <==> now + v.parkingDuration < TWO32
  {
  }
}
