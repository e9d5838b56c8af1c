/** server/simulation.c: creation, the tick loop and the two snapshots. */
module Simulations {
  import opened Words
  import opened Configuration
  import opened Vehicles
  import opened Parkings
  import opened Statistics

  /** The value of a simulation; vehicle_count is the length of vehicles. */
  datatype SimState = SimState(
    config: SimulationConfig, lot: Lot, vehicles: seq<VehicleRec>, stats: StatsRec,
    nextVehicleId: u32, elapsed: u32, nextArrival: u32)

  /** What simulation_get_state fills in (common/protocol.h). */
  datatype ParkingState = ParkingState(
    totalSpots: u32, occupiedSpots: u32, waitingVehicles: u32, elapsedTime: u32, remainingTime: u32, mode: u32)

  /** What simulation_get_statistics fills in. */
  datatype Report = Report(
    totalArrivals: u32, totalParked: u32, totalLeftNoSpace: u32, totalDeparted: u32,
    currentParked: u32, currentWaiting: u32,
    avgParkingTime: real, avgWaitTime: real, occupancyRate: real)

  /** What rand() returns to a tick, if the tick asks for it. */
  datatype Draws = Draws(duration: Draw, interval: Draw)

  /** What every operation below needs in order to be defined. */
  predicate WellFormed(s: SimState) {
    ValidateSimulationConfig(s.config) && Registered(s.lot, |s.vehicles|)
  }

  /** simulation_create after its validation. */
  function Initial(config: SimulationConfig, draw: Draw): (s: SimState)
    requires ValidateSimulationConfig(config)
    ensures WellFormed(s)
  {
    SimState(config, Lot(seq(config.parkingSpots, _ => None), 0, [], config.mode), [], ZERO, 1, 0,
             RandomRange(config.minArrivalInterval, config.maxArrivalInterval, draw))
  }

  predicate ArrivalDue(s: SimState) {
    s.elapsed >= s.nextArrival && |s.vehicles| < MAX_SIM_VEHICLES
  }

  /** A new vehicle enters the vehicle array. */
  function Register(s: SimState, d: Draws): (r: SimState)
    requires WellFormed(s)
    ensures WellFormed(r) && r.config == s.config && r.elapsed == s.elapsed && |r.vehicles| == |s.vehicles| + 1
  {
    var duration := RandomRange(s.config.minParkingTime, s.config.maxParkingTime, d.duration);
    s.(vehicles := s.vehicles + [Created(s.nextVehicleId, s.elapsed, duration)],
       nextVehicleId := Wrap(s.nextVehicleId + 1))
  }

  /** The counter that records how an arrival went: parked, waiting, or turned away. */
  function CountOutcome(stats: StatsRec, result: int): StatsRec {
    if result == 1 then stats.AddParked(0) else if result == 0 then stats else stats.AddLeftNoSpace()
  }

  /** The newest vehicle is counted and tries to park, and the outcome is counted. */
  function Place(s: SimState): (r: SimState)
    requires WellFormed(s) && s.vehicles != []
    ensures WellFormed(r) && r.config == s.config && r.elapsed == s.elapsed && |r.vehicles| == |s.vehicles|
  {
    var key := |s.vehicles| - 1;
    var (lot, v, result) := TryParkResult(s.lot, s.vehicles[key], key, s.elapsed);
    s.(lot := lot, vehicles := s.vehicles[key := v], stats := CountOutcome(s.stats.AddArrival(), result))
  }

  function Reschedule(s: SimState, d: Draws): (r: SimState)
    requires WellFormed(s)
    ensures WellFormed(r)
  {
    s.(nextArrival := Wrap(s.elapsed + RandomRange(s.config.minArrivalInterval, s.config.maxArrivalInterval, d.interval)))
  }

  /** The first phase of a tick: at most one vehicle arrives. */
  function Arrive(s: SimState, d: Draws): (r: SimState)
    requires WellFormed(s)
    ensures WellFormed(r) && r.config == s.config && r.elapsed == s.elapsed
  {
    if ArrivalDue(s) then Reschedule(Place(Register(s, d)), d) else s
  }

  /** One step of the departure scan. */
  function DepartOne(s: SimState, i: nat): (r: SimState)
    requires WellFormed(s) && i < |s.vehicles|
    ensures WellFormed(r) && r.config == s.config && r.elapsed == s.elapsed && r.nextArrival == s.nextArrival && |r.vehicles| == |s.vehicles|
  {
    var v := s.vehicles[i];
    if !v.ShouldDepart(s.elapsed) then s
    else
      var (lot, v1, _) := DepartResult(s.lot, v);
      s.(lot := lot, vehicles := s.vehicles[i := v1], stats := s.stats.AddDeparture(v.parkingDuration))
  }

  /** The second phase: the departure scan from vehicle i on. */
  function DepartFrom(s: SimState, i: nat): (r: SimState)
    requires WellFormed(s) && i <= |s.vehicles|
    ensures WellFormed(r) && r.config == s.config && r.elapsed == s.elapsed && r.nextArrival == s.nextArrival && |r.vehicles| == |s.vehicles|
    decreases |s.vehicles| - i
  {
    if i == |s.vehicles| then s else DepartFrom(DepartOne(s, i), i + 1)
  }

  /** The third phase: draining the queue. Every admission is recorded with a wait of 1. */
  function Refill(s: SimState): (r: SimState)
    requires WellFormed(s)
    ensures WellFormed(r) && r.config == s.config && r.elapsed == s.elapsed && r.nextArrival == s.nextArrival && |r.vehicles| == |s.vehicles|
  {
    var r := Drain(s.lot, s.vehicles, s.elapsed);
    s.(lot := r.0, vehicles := r.1, stats := s.stats.AddParkedTimes(r.2, 1))
  }

  /** The fourth phase: two counters are overwritten. */
  function Overwrite(s: SimState): (r: SimState)
    requires WellFormed(s)
    ensures WellFormed(r)
  {
    s.(stats := s.stats.(currentParked := s.lot.occupied, currentWaiting := Wrap(|s.lot.waiting|)))
  }

  /** Everything in a tick between the arrival and the advance of time. */
  function Settle(s: SimState): (r: SimState)
    requires WellFormed(s)
    ensures WellFormed(r)
  {
    Overwrite(Refill(DepartFrom(s, 0)))
  }

  function Advance(s: SimState): (r: SimState)
    requires WellFormed(s)
    ensures WellFormed(r)
  {
    s.(elapsed := Wrap(s.elapsed + 1))
  }

  /** The body of the simulation thread's loop. */
  function Tick(s: SimState, d: Draws): (r: SimState)
    requires WellFormed(s)
    ensures WellFormed(r)
  {
    Advance(Settle(Arrive(s, d)))
  }

  /** The state after ticks that drew the given values. */
  function After(s: SimState, draws: seq<Draws>): (r: SimState)
    requires WellFormed(s)
    ensures WellFormed(r)
  {
    if draws == [] then s else Tick(After(s, draws[..|draws| - 1]), draws[|draws| - 1])
  }

  /** simulation_get_state. */
  function StateSnapshot(s: SimState): ParkingState {
    ParkingState(Wrap(|s.lot.spots|), s.lot.occupied, Wrap(|s.lot.waiting|), s.elapsed,
                 Wrap(s.config.durationSec - s.elapsed), s.config.mode)
  }

  function Ratio(numerator: int, denominator: int): real {
    if denominator > 0 then numerator as real / denominator as real else 0.0
  }

  /** simulation_get_statistics, with its single-precision quotients taken as reals. */
  function StatsSnapshot(s: SimState): Report {
    Report(s.stats.totalArrivals, s.stats.totalParked, s.stats.totalLeftNoSpace, s.stats.totalDeparted,
           s.stats.currentParked, s.stats.currentWaiting,
           Ratio(s.stats.totalParkingTime, s.stats.totalParkingCount),
           Ratio(s.stats.totalWaitTime, s.stats.totalWaited),
           Ratio(s.lot.occupied, |s.lot.spots|) * 100.0)
  }

  /** The departure scan started at s0 and, having reached s, has vehicle i next. */
  predicate Scanned(s0: SimState, s: SimState, i: nat) {
    && WellFormed(s0) && WellFormed(s) && i <= |s.vehicles|
    && DepartFrom(s0, 0) == DepartFrom(s, i)
  }

  lemma ScannedStart(s: SimState)
    requires WellFormed(s)
    ensures Scanned(s, s, 0)
  {
  }

  lemma ScannedStep(s0: SimState, s: SimState, i: nat)
    requires Scanned(s0, s, i) && i < |s.vehicles|
    ensures WellFormed(s) && Scanned(s0, DepartOne(s, i), i + 1)
  {
  }

  lemma ScannedEnd(s0: SimState, s: SimState)
    requires Scanned(s0, s, |s.vehicles|)
    ensures WellFormed(s0) && DepartFrom(s0, 0) == s
  {
  }

  lemma RefillParts(s: SimState, lot: Lot, vs: seq<VehicleRec>, count: nat, stats: StatsRec)
    requires WellFormed(s) && DrainsTo(s.lot, s.vehicles, s.elapsed, lot, vs, count)
    requires stats == s.stats.AddParkedTimes(count, 1)
    ensures Refill(s) == s.(lot := lot, vehicles := vs, stats := stats)
  {
  }

  /** From s0, the first n of the given ticks lead to s. */
  predicate Reaches(s0: SimState, draws: seq<Draws>, n: nat, s: SimState) {
    WellFormed(s0) && WellFormed(s) && n <= |draws| && s == After(s0, draws[..n])
  }

  lemma ReachesStart(s: SimState, draws: seq<Draws>)
    requires WellFormed(s)
    ensures Reaches(s, draws, 0, s)
  {
  }

  lemma ReachesStep(s0: SimState, draws: seq<Draws>, n: nat, s: SimState)
    requires Reaches(s0, draws, n, s) && n < |draws|
    ensures WellFormed(s) && Reaches(s0, draws, n + 1, Tick(s, draws[n]))
  {
    assert draws[..n + 1][..n] == draws[..n];
  }

  // ---------------------------------------------------------------- the mutable simulation

  class Simulation {
    const config: SimulationConfig
    const parking: Parking
    const stats: Statistics
    const vehicles: array<Vehicle?>
    var vehicleCount: u32
    var nextVehicleId: u32
    var elapsedTime: u32
    var nextArrivalTime: u32
    var running: bool

    /** The vehicles created so far, in order. */
    ghost var table: seq<Vehicle>

    /** The objects that come and go: the queue's nodes and the vehicles. */
    ghost function Dynamic(): set<object>
      reads this`table, parking.queue`nodes
    {
      (set n | n in parking.queue.nodes) + (set v | v in table)
    }

    /** Since the old state only new vehicles and new queue nodes have joined this
        simulation's objects. */
    twostate predicate OnlyGrows()
      reads this, parking.queue
    {
      && old(table) <= table
      && (forall i :: old(|table|) <= i < |table| ==> fresh(table[i]))
      && (forall n :: n in parking.queue.nodes ==> n in old(parking.queue.nodes) || fresh(n))
      && running == old(running)
    }

    ghost predicate Valid()
      reads `vehicleCount, `nextVehicleId, `table
      reads parking, parking.spots, parking.queue, parking.queue.nodes, vehicles
    {
      && ValidateSimulationConfig(config)
      && parking.Valid()
      && vehicles.Length == MAX_SIM_VEHICLES
      && |table| == vehicleCount <= MAX_SIM_VEHICLES
      && nextVehicleId == vehicleCount + 1
      && (forall i :: 0 <= i < |table| ==> table[i].Key() == i)
      && (forall i :: 0 <= i < |table| ==> vehicles[i] == table[i])
      && parking.QueueIn(table)
      && |parking.queue.nodes| <= |table|
    }

    ghost function Value(): (s: SimState)
      requires Valid()
      reads `vehicleCount, `nextVehicleId, `table, `elapsedTime, `nextArrivalTime
      reads parking, parking.spots, parking.queue, parking.queue.nodes, vehicles, stats, table
    {
      SimState(config, parking.Value(), Recs(table), stats.Rec(), nextVehicleId, elapsedTime, nextArrivalTime)
    }

    lemma ValueWellFormed()
      requires Valid()
      ensures WellFormed(Value()) && vehicleCount == |table| <= vehicles.Length
      ensures forall i :: 0 <= i < |table| ==> vehicles[i] == table[i]
    {
    }

    lemma RearIsListed()
      requires Valid()
      ensures parking.queue.rear != null ==> parking.queue.rear in parking.queue.nodes
    {
      parking.queue.RearIsListed();
    }

    constructor (config: SimulationConfig, draw: Draw)
      requires ValidateSimulationConfig(config)
      ensures Valid() && !running && fresh(parking.Footprint() + {stats, vehicles}) && table == []
      ensures Value() == Initial(config, draw)
    {
      this.config := config;
      parking := new Parking(config.parkingSpots, config.mode);
      stats := new Statistics();
      vehicles := new Vehicle?[MAX_SIM_VEHICLES](_ => null);
      vehicleCount, nextVehicleId, elapsedTime := 0, 1, 0;
      nextArrivalTime := RandomRange(config.minArrivalInterval, config.maxArrivalInterval, draw);
      running := false;
      table := [];
    }

    /** simulation_create: null exactly for the configurations the validation refuses. */
    static method Create(config: SimulationConfig, draw: Draw) returns (sim: Simulation?)
      ensures sim == null <==> !ValidateSimulationConfig(config)
      ensures sim != null
              <==> 1 <= config.parkingSpots <= 200 && config.mode <= 1 && 10 <= config.durationSec <= 3600
                   && 1 <= config.minArrivalInterval <= config.maxArrivalInterval
                   && 1 <= config.minParkingTime <= config.maxParkingTime
      ensures sim != null ==> sim.Valid() && !sim.running && sim.Value() == Initial(config, draw)
      ensures sim != null ==> fresh(sim) && fresh(sim.parking.Footprint() + {sim.stats, sim.vehicles}) && sim.table == []
    {
      ValidationInNumbers(config);
      if !ValidateSimulationConfig(config) {
        return null;
      }
      sim := new Simulation(config, draw);
    }

    method NewVehicle(d: Draws) returns (vehicle: Vehicle)
      requires Valid()
      ensures fresh(vehicle) && vehicle.id == nextVehicleId
      ensures vehicle.Rec() == Created(nextVehicleId, elapsedTime,
                                       RandomRange(config.minParkingTime, config.maxParkingTime, d.duration))
    {
      var duration := RandomRange(config.minParkingTime, config.maxParkingTime, d.duration);
      vehicle := new Vehicle(nextVehicleId, elapsedTime, duration);
    }

    method AppendVehicle(vehicle: Vehicle)
      requires Valid() && vehicleCount < MAX_SIM_VEHICLES && vehicle.id == nextVehicleId
      modifies this`vehicleCount, this`nextVehicleId, this`table, vehicles
      ensures Valid() && table == old(table) + [vehicle] && |parking.queue.nodes| < |table|
      ensures Value() == old(Value()).(vehicles := old(Recs(table)) + [vehicle.Rec()],
                                       nextVehicleId := Wrap(old(nextVehicleId) + 1))
    {
      nextVehicleId := Wrap(nextVehicleId + 1);
      vehicles[vehicleCount] := vehicle;
      vehicleCount := Wrap(vehicleCount + 1);
      table := table + [vehicle];
      assert Recs(table) == old(Recs(table)) + [vehicle.Rec()];
    }

    method RegisterVehicle(d: Draws) returns (vehicle: Vehicle)
      requires Valid() && vehicleCount < MAX_SIM_VEHICLES
      modifies this, vehicles
      ensures Valid() && OnlyGrows() && table == old(table) + [vehicle] && fresh(vehicle)
      ensures |parking.queue.nodes| < |table|
      ensures WellFormed(old(Value())) && Value() == Register(old(Value()), d)
    {
      hide RandomRange, Registered, ValidateSimulationConfig, Wrap, Valid;
      ValueWellFormed();
      vehicle := NewVehicle(d);
      AppendVehicle(vehicle);
    }

    method TryParkNewest(vehicle: Vehicle) returns (result: int)
      requires Valid() && table != [] && vehicle == table[|table| - 1] && |parking.queue.nodes| < |table|
      modifies parking, parking.spots, parking.queue, parking.queue.rear, vehicle
      ensures Valid() && OnlyGrows() && table == old(table)
      ensures (parking.Value(), vehicle.Rec(), result)
              == TryParkResult(old(parking.Value()), old(vehicle.Rec()), |table| - 1, elapsedTime)
      ensures Recs(table) == old(Recs(table))[|table| - 1 := vehicle.Rec()]
    {
      hide TryParkResult, FirstFree;
      result := parking.TryPark(vehicle, elapsedTime);
    }

    method RecordOutcome(result: int)
      modifies stats
      ensures stats.Rec() == CountOutcome(old(stats.Rec()), result)
    {
      if result == 1 {
        stats.AddParked(0);
      } else if result != 0 {
        stats.AddLeftNoSpace();
      }
    }

    method PlaceVehicle(vehicle: Vehicle)
      requires Valid() && table != [] && vehicle == table[|table| - 1] && |parking.queue.nodes| < |table|
      modifies stats, parking, parking.spots, parking.queue, parking.queue.rear, vehicle
      ensures Valid() && OnlyGrows() && table == old(table)
      ensures WellFormed(old(Value())) && Value() == Place(old(Value()))
    {
      hide TryParkResult, FirstFree, CountOutcome, Registered, ValidateSimulationConfig, Wrap, Valid;
      ValueWellFormed();
      stats.AddArrival();
      var result := TryParkNewest(vehicle);
      RecordOutcome(result);
    }

    method ArrivalPhase(d: Draws)
      requires Valid()
      modifies this, vehicles, stats, parking, parking.spots, parking.queue, parking.queue.rear
      ensures Valid() && OnlyGrows() && elapsedTime == old(elapsedTime)
      ensures WellFormed(old(Value())) && Value() == Arrive(old(Value()), d)
    {
      hide Register, Place, Registered, ValidateSimulationConfig, Wrap, RandomRange, Valid;
      ValueWellFormed();
      if elapsedTime >= nextArrivalTime && vehicleCount < MAX_SIM_VEHICLES {
        var vehicle := RegisterVehicle(d);
        PlaceVehicle(vehicle);
        Postpone(d);
      }
    }

    method Postpone(d: Draws)
      requires Valid()
      modifies this`nextArrivalTime
      ensures Valid() && WellFormed(old(Value())) && Value() == Reschedule(old(Value()), d)
    {
      nextArrivalTime := Wrap(elapsedTime + RandomRange(config.minArrivalInterval, config.maxArrivalInterval, d.interval));
    }

    method ReleaseSpot(i: nat, vehicle: Vehicle)
      requires Valid() && i < |table| && vehicle == table[i]
      modifies parking, parking.spots, vehicle
      ensures Valid() && parking.queue.nodes == old(parking.queue.nodes)
      ensures parking.Value() == DepartResult(old(parking.Value()), old(vehicle.Rec())).0
      ensures Recs(table) == old(Recs(table))[i := DepartResult(old(parking.Value()), old(vehicle.Rec())).1]
    {
      hide DepartResult;
      var _ := parking.Depart(vehicle);
      assert Recs(table) == old(Recs(table))[i := vehicle.Rec()];
    }

    method DepartVehicle(i: nat)
      requires Valid() && i < |table|
      modifies stats, parking, parking.spots, table
      ensures Valid() && parking.queue.nodes == old(parking.queue.nodes)
      ensures WellFormed(old(Value())) && Value() == DepartOne(old(Value()), i)
    {
      hide DepartResult, Registered, ValidateSimulationConfig, Wrap, Valid;
      ValueWellFormed();
      var vehicle := vehicles[i];
      if vehicle != null {
        var leaving := vehicle.ShouldDepart(elapsedTime);
        if leaving {
          ReleaseSpot(i, vehicle);
          stats.AddDeparture(vehicle.parkingDuration);
        }
      }
    }

    method DeparturePhase()
      requires Valid()
      modifies stats, parking, parking.spots, table
      ensures Valid() && parking.queue.nodes == old(parking.queue.nodes)
      ensures WellFormed(old(Value())) && Value() == DepartFrom(old(Value()), 0)
    {
      hide DepartOne, DepartFrom, Registered, ValidateSimulationConfig, Wrap, Scanned;
      ValueWellFormed();
      ghost var s := Value();
      var i: u32 := 0;
      ScannedStart(s);
      while i < vehicleCount
        invariant i <= vehicleCount
        invariant Valid() && parking.queue.nodes == old(parking.queue.nodes)
        invariant s == Value() && Scanned(old(Value()), s, i)
      {
        ScannedStep(old(Value()), s, i);
        DepartVehicle(i);
        s := Value();
        i := i + 1;
      }
      ScannedEnd(old(Value()), s);
    }

    method DrainQueue() returns (parked: nat)
      requires Valid()
      modifies parking, parking.spots, parking.queue, table
      ensures Valid() && forall n :: n in parking.queue.nodes ==> n in old(parking.queue.nodes)
      ensures DrainsTo(old(parking.Value()), old(Recs(table)), elapsedTime, parking.Value(), Recs(table), parked)
    {
      hide DrainsTo, Registered;
      parked := parking.ProcessQueue(elapsedTime, table);
    }

    method RefillPhase()
      requires Valid()
      modifies stats, parking, parking.spots, parking.queue, table
      ensures Valid() && forall n :: n in parking.queue.nodes ==> n in old(parking.queue.nodes)
      ensures WellFormed(old(Value())) && Value() == Refill(old(Value()))
    {
      hide DrainsTo, Refill, Registered, ValidateSimulationConfig, Wrap, StatsRec.AddParkedTimes;
      ValueWellFormed();
      ghost var s := Value();
      var parkedFromQueue := DrainQueue();
      RecordParked(parkedFromQueue);
      RefillParts(s, parking.Value(), Recs(table), parkedFromQueue, stats.Rec());
    }

    method RecordParked(times: nat)
      modifies stats
      ensures stats.Rec() == old(stats.Rec()).AddParkedTimes(times, 1)
    {
      var i := 0;
      while i < times
        invariant 0 <= i <= times
        invariant old(stats.Rec()).AddParkedTimes(times, 1) == stats.Rec().AddParkedTimes(times - i, 1)
      {
        stats.AddParked(1);
        i := i + 1;
      }
    }

    method OverwriteCounters()
      requires Valid()
      modifies stats
      ensures Valid() && WellFormed(old(Value())) && Value() == Overwrite(old(Value()))
    {
      hide Registered, ValidateSimulationConfig;
      ValueWellFormed();
      stats.currentParked := parking.occupiedCount;
      stats.currentWaiting := parking.GetWaitingCount();
    }

    method SettlePhases()
      requires Valid()
      modifies stats, parking, parking.spots, parking.queue, table
      ensures Valid() && forall n :: n in parking.queue.nodes ==> n in old(parking.queue.nodes)
      ensures WellFormed(old(Value())) && Value() == Settle(old(Value()))
    {
      hide DepartFrom, Refill, Overwrite, Registered, ValidateSimulationConfig, Wrap;
      DeparturePhase();
      RefillPhase();
      OverwriteCounters();
    }

    method AdvanceTime()
      requires Valid()
      modifies this`elapsedTime
      ensures Valid() && elapsedTime == Wrap(old(elapsedTime) + 1)
      ensures WellFormed(old(Value())) && Value() == Advance(old(Value()))
    {
      elapsedTime := Wrap(elapsedTime + 1);
    }

    method ArriveAndSettle(d: Draws)
      requires Valid()
      modifies this, vehicles, stats, parking, parking.spots, parking.queue, parking.queue.rear, table
      ensures Valid() && OnlyGrows() && elapsedTime == old(elapsedTime)
      ensures WellFormed(old(Value())) && Value() == Settle(Arrive(old(Value()), d))
    {
      hide Arrive, Settle, Registered, ValidateSimulationConfig, Wrap;
      ArrivalPhase(d);
      SettlePhases();
    }

    method TickBody(d: Draws)
      requires Valid()
      modifies this, vehicles, stats, parking, parking.spots, parking.queue, Dynamic()
      ensures Valid() && running == old(running) && elapsedTime == Wrap(old(elapsedTime) + 1)
      ensures forall o: object :: o in Dynamic() ==> o in old(Dynamic()) || fresh(o)
      ensures WellFormed(old(Value())) && Value() == Tick(old(Value()), d)
    {
      hide Arrive, Settle, Advance, Registered, ValidateSimulationConfig, Wrap, Valid, Value;
      RearIsListed();
      ArriveAndSettle(d);
      AdvanceTime();
    }

    /** simulation_start, up to the creation of the thread. */
    method Start() returns (ok: bool)
      requires Valid()
      modifies this`running, this`elapsedTime
      ensures Valid() && running && ok == !old(running)
      ensures Value() == if ok then old(Value()).(elapsed := 0) else old(Value())
    {
      if running {
        return false;
      }
      running := true;
      elapsedTime := 0;
      ok := true;
    }

    /** The simulation thread. The loop test reads running without the lock; stopAfter says
        how many tests find it still set, whatever other threads do. */
    method ThreadFunc(draws: seq<Draws>, stopAfter: nat)
      requires Valid() && elapsedTime <= config.durationSec
      requires |draws| == config.durationSec - elapsedTime
      modifies this, vehicles, stats, parking, parking.spots, parking.queue, Dynamic()
      ensures Valid() && !running
      ensures Reaches(old(Value()), draws, if stopAfter < |draws| then stopAfter else |draws|, Value())
    {
      hide Tick, Reaches, WellFormed, Dynamic, Valid, Value;
      ValueWellFormed();
      ghost var s := Value();
      ReachesStart(s, draws);
      var ticks := 0;
      while ticks < stopAfter && elapsedTime < config.durationSec
        invariant 0 <= ticks <= |draws| && ticks <= stopAfter
        invariant Valid() && elapsedTime == old(elapsedTime) + ticks <= config.durationSec
        invariant forall o: object :: o in Dynamic() ==> o in old(Dynamic()) || fresh(o)
        invariant s == Value() && Reaches(old(Value()), draws, ticks, s)
      {
        ReachesStep(old(Value()), draws, ticks, s);
        TickBody(draws[ticks]);
        s := Value();
        ticks := ticks + 1;
      }
      running := false;
    }

    method GetState() returns (state: ParkingState)
      requires Valid()
      ensures state == StateSnapshot(Value())
    {
      var waiting := parking.GetWaitingCount();
      state := ParkingState(parking.spots.Length, parking.occupiedCount, waiting, elapsedTime,
                            Wrap(config.durationSec - elapsedTime), config.mode);
    }

    method GetStatistics() returns (report: Report)
      requires Valid()
      ensures report == StatsSnapshot(Value())
    {
      var avgParking, avgWait, rate := 0.0, 0.0, 0.0;
      if stats.totalParkingCount > 0 {
        avgParking := stats.totalParkingTime as real / stats.totalParkingCount as real;
      }
      if stats.totalWaited > 0 {
        avgWait := stats.totalWaitTime as real / stats.totalWaited as real;
      }
      if parking.spots.Length > 0 {
        rate := (parking.occupiedCount as real / parking.spots.Length as real) * 100.0;
      }
      report := Report(stats.totalArrivals, stats.totalParked, stats.totalLeftNoSpace, stats.totalDeparted,
                       stats.currentParked, stats.currentWaiting, avgParking, avgWait, rate);
    }
  }
}
