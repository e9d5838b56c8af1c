/** What every tick of the simulation keeps. Nothing here is checked by the code itself: the
    lot, the queue, the vehicle records and the counters agree because no step breaks their
    agreement. */
module Invariants {
  import opened Words
  import opened Configuration
  import opened Vehicles
  import opened Parkings
  import opened Simulations

  // ---------------------------------------------------------------- counting

  function ParkedCount(vs: seq<VehicleRec>, n: nat): (r: nat)
    requires n <= |vs|
    ensures r <= n
  {
    if n == 0 then 0 else ParkedCount(vs, n - 1) + if vs[n - 1].state.Parked? then 1 else 0
  }

  function OccupiedCount(spots: seq<Option<nat>>, n: nat): (r: nat)
    requires n <= |spots|
    ensures r <= n
    ensures r == n <==> forall p :: 0 <= p < n ==> spots[p].Some?
  {
    if n == 0 then 0 else OccupiedCount(spots, n - 1) + if spots[n - 1].Some? then 1 else 0
  }

  function One(b: bool): nat {
    if b then 1 else 0
  }

  lemma {:induction false} ParkedCountUpdate(vs: seq<VehicleRec>, n: nat, i: nat, v: VehicleRec)
    requires i < |vs| && n <= |vs|
    ensures ParkedCount(vs[i := v], n)
            == ParkedCount(vs, n) + if i < n then One(v.state.Parked?) - One(vs[i].state.Parked?) else 0
  {
    if n > 0 {
      ParkedCountUpdate(vs, n - 1, i, v);
    }
  }

  lemma {:induction false} ParkedCountPrefix(vs: seq<VehicleRec>, ws: seq<VehicleRec>, n: nat)
    requires n <= |vs| && n <= |ws| && forall i :: 0 <= i < n ==> vs[i].state.Parked? == ws[i].state.Parked?
    ensures ParkedCount(vs, n) == ParkedCount(ws, n)
  {
    if n > 0 {
      ParkedCountPrefix(vs, ws, n - 1);
    }
  }

  lemma {:induction false} OccupiedCountUpdate(spots: seq<Option<nat>>, n: nat, p: nat, x: Option<nat>)
    requires p < |spots| && n <= |spots|
    ensures OccupiedCount(spots[p := x], n)
            == OccupiedCount(spots, n) + if p < n then One(x.Some?) - One(spots[p].Some?) else 0
  {
    if n > 0 {
      OccupiedCountUpdate(spots, n - 1, p, x);
    }
  }

  // ---------------------------------------------------------------- the invariants

  ghost predicate Shape(s: SimState) {
    && ValidateSimulationConfig(s.config)
    && |s.lot.spots| == s.config.parkingSpots && s.lot.mode == s.config.mode
    && |s.vehicles| <= MAX_SIM_VEHICLES && s.nextVehicleId == |s.vehicles| + 1
    && s.elapsed <= s.config.durationSec
    && forall i :: 0 <= i < |s.vehicles| ==>
         && s.vehicles[i].id == i + 1
         && s.config.minParkingTime <= s.vehicles[i].parkingDuration <= s.config.maxParkingTime
  }

  /** Spot p holds vehicle i exactly when vehicle i is parked and names spot p. */
  ghost predicate SpotsMatch(s: SimState) {
    && (forall p :: 0 <= p < |s.lot.spots| && s.lot.spots[p].Some? ==>
          var i := s.lot.spots[p].value;
          i < |s.vehicles| && s.vehicles[i].state.Parked? && s.vehicles[i].spot == p)
    && (forall i :: 0 <= i < |s.vehicles| ==>
          if s.vehicles[i].state.Parked?
          then 0 <= s.vehicles[i].spot < |s.lot.spots| && s.lot.spots[s.vehicles[i].spot] == Some(i)
          else s.vehicles[i].spot == -1)
    && s.lot.occupied == OccupiedCount(s.lot.spots, |s.lot.spots|)
    && s.lot.occupied == ParkedCount(s.vehicles, |s.vehicles|)
  }

  /** The number of vehicles that are no longer, or never were, waiting: all of them precede
      every waiting one. */
  ghost function Head(s: SimState): int {
    |s.vehicles| - |s.lot.waiting|
  }

  /** The queue is the last stretch of the vehicle array, in arrival order. */
  ghost predicate Fifo(s: SimState) {
    && 0 <= Head(s)
    && (forall k :: 0 <= k < |s.lot.waiting| ==> s.lot.waiting[k] == Head(s) + k)
    && (forall i :: 0 <= i < |s.vehicles| ==> (s.vehicles[i].state.Waiting? <==> i >= Head(s)))
    && (s.lot.mode == NO_WAIT ==> s.lot.waiting == [])
  }

  /** No vehicle arrived at limit or later; who waits has no departure time yet, and who is
      parked departs within its parking time. */
  ghost predicate Dated(s: SimState, limit: int) {
    forall i :: 0 <= i < |s.vehicles| ==>
      && s.vehicles[i].arrivalTime < limit
      && (s.vehicles[i].state.Waiting? ==> s.vehicles[i].departureTime == 0)
      && (s.vehicles[i].state.Parked? ==> s.vehicles[i].departureTime < limit + s.vehicles[i].parkingDuration)
  }

  /** No spot is free while a vehicle waits. */
  ghost predicate Settled(s: SimState) {
    s.lot.waiting == [] || s.lot.occupied == |s.lot.spots|
  }

  /** Within a tick. */
  ghost predicate InTick(s: SimState) {
    && Shape(s) && SpotsMatch(s) && Fifo(s) && Dated(s, s.elapsed + 1)
    && s.elapsed < s.config.durationSec
  }

  /** Between two ticks. */
  ghost predicate Boundary(s: SimState) {
    Shape(s) && SpotsMatch(s) && Fifo(s) && Dated(s, s.elapsed) && Settled(s)
  }

  lemma InTickWellFormed(s: SimState)
    requires Shape(s) && Fifo(s)
    ensures WellFormed(s)
  {
  }

  lemma BoundaryWellFormed(s: SimState)
    requires Boundary(s)
    ensures WellFormed(s)
  {
  }

  // ---------------------------------------------------------------- the phases keep them

  lemma {:induction false} AllFree(spots: seq<Option<nat>>, n: nat)
    requires n <= |spots| && forall p :: 0 <= p < |spots| ==> spots[p].None?
    ensures OccupiedCount(spots, n) == 0
  {
    if n > 0 {
      AllFree(spots, n - 1);
    }
  }

  lemma InitialBoundary(config: SimulationConfig, draw: Draw)
    requires ValidateSimulationConfig(config)
    ensures Boundary(Initial(config, draw))
  {
    AllFree(Initial(config, draw).lot.spots, config.parkingSpots);
  }

  /** Vehicle key, waiting, takes the lowest free spot of the lot; the queue is adjusted
      separately. */
  lemma TakeSpotMatches(s: SimState, key: nat, r: SimState)
    requires SpotsMatch(s) && Shape(s) && key < |s.vehicles| && !s.vehicles[key].state.Parked?
    requires FirstFree(s.lot.spots, 0) >= 0
    requires r.lot.spots == TakeSpot(s.lot, FirstFree(s.lot.spots, 0), key).spots
    requires r.lot.occupied == TakeSpot(s.lot, FirstFree(s.lot.spots, 0), key).occupied
    requires r.vehicles == s.vehicles[key := s.vehicles[key].Park(FirstFree(s.lot.spots, 0), s.elapsed)]
    ensures SpotsMatch(r)
  {
    var p := FirstFree(s.lot.spots, 0);
    OccupiedCountUpdate(s.lot.spots, |s.lot.spots|, p, Some(key));
    ParkedCountUpdate(s.vehicles, |s.vehicles|, key, r.vehicles[key]);
  }

  lemma RegisterKeeps(s: SimState, d: Draws)
    requires InTick(s) && |s.vehicles| < MAX_SIM_VEHICLES
    ensures WellFormed(s) && Shape(Register(s, d)) && SpotsMatch(Register(s, d))
  {
    InTickWellFormed(s);
    var r := Register(s, d);
    ParkedCountPrefix(s.vehicles, r.vehicles, |s.vehicles|);
  }

  lemma PlaceMatches(s: SimState, d: Draws)
    requires InTick(s) && |s.vehicles| < MAX_SIM_VEHICLES
    ensures WellFormed(s) && SpotsMatch(Place(Register(s, d)))
  {
    RegisterKeeps(s, d);
    var r := Register(s, d);
    var t := Place(r);
    var key := |s.vehicles|;
    if FirstFree(s.lot.spots, 0) >= 0 {
      TakeSpotMatches(r, key, t);
    } else {
      ParkedCountUpdate(r.vehicles, |r.vehicles|, key, t.vehicles[key]);
    }
  }

  /** An arrival that finds a free spot finds an empty queue too. */
  lemma PlaceKeeps(s: SimState, d: Draws)
    requires InTick(s) && Settled(s) && |s.vehicles| < MAX_SIM_VEHICLES
    ensures WellFormed(s) && InTick(Place(Register(s, d))) && Settled(Place(Register(s, d)))
  {
    hide SpotsMatch, Fifo, Dated, Settled, RandomRange;
    PlaceMatches(s, d);
    PlaceFifo(s, d);
    PlaceDated(s, d);
    RegisterKeeps(s, d);
  }

  lemma PlaceFifo(s: SimState, d: Draws)
    requires InTick(s) && Settled(s) && |s.vehicles| < MAX_SIM_VEHICLES
    ensures WellFormed(s) && Fifo(Place(Register(s, d))) && Settled(Place(Register(s, d)))
  {
    InTickWellFormed(s);
    FreeSpotMeansEmptyQueue(s);
    hide SpotsMatch, Dated;
    var t := Place(Register(s, d));
    assert forall i :: 0 <= i < |s.vehicles| ==> t.vehicles[i] == s.vehicles[i];
  }

  lemma PlaceDated(s: SimState, d: Draws)
    requires InTick(s) && |s.vehicles| < MAX_SIM_VEHICLES
    ensures WellFormed(s) && Dated(Place(Register(s, d)), s.elapsed + 1)
  {
    InTickWellFormed(s);
    hide SpotsMatch, Fifo;
    var t := Place(Register(s, d));
    assert forall i :: 0 <= i < |s.vehicles| ==> t.vehicles[i] == s.vehicles[i];
  }

  lemma FreeSpotMeansEmptyQueue(s: SimState)
    requires SpotsMatch(s) && Settled(s)
    ensures if FirstFree(s.lot.spots, 0) >= 0
            then s.lot.waiting == [] && s.lot.occupied < |s.lot.spots|
            else s.lot.occupied == |s.lot.spots|
  {
  }

  /** The counters and the next arrival time play no part in the invariants. */
  lemma BooksAreSeparate(s: SimState, r: SimState)
    requires InTick(s) && r == s.(stats := r.stats, nextArrival := r.nextArrival)
    ensures InTick(r) && Settled(r) == Settled(s)
  {
  }

  lemma ArriveKeeps(s: SimState, d: Draws)
    requires InTick(s) && Settled(s)
    ensures WellFormed(s) && InTick(Arrive(s, d)) && Settled(Arrive(s, d))
  {
    hide Shape, SpotsMatch, Fifo, Dated, Settled, Place, Register;
    InTickWellFormed(s);
    if ArrivalDue(s) {
      PlaceKeeps(s, d);
      BooksAreSeparate(Place(Register(s, d)), Arrive(s, d));
    }
  }

  lemma DepartMatches(s: SimState, i: nat)
    requires SpotsMatch(s) && Shape(s) && WellFormed(s) && i < |s.vehicles|
    ensures SpotsMatch(DepartOne(s, i))
  {
    var v := s.vehicles[i];
    if v.ShouldDepart(s.elapsed) {
      OccupiedCountUpdate(s.lot.spots, |s.lot.spots|, v.spot, None);
      ParkedCountUpdate(s.vehicles, |s.vehicles|, i, v.Leave());
    }
  }

  lemma DepartOneKeeps(s: SimState, i: nat)
    requires InTick(s) && i < |s.vehicles|
    ensures WellFormed(s) && InTick(DepartOne(s, i))
    ensures DepartOne(s, i).lot.waiting == s.lot.waiting
  {
    InTickWellFormed(s);
    DepartMatches(s, i);
    DepartDated(s, i);
    hide SpotsMatch, Wrap, Dated;
  }

  lemma DepartDated(s: SimState, i: nat)
    requires WellFormed(s) && i < |s.vehicles| && Dated(s, s.elapsed + 1)
    ensures Dated(DepartOne(s, i), s.elapsed + 1)
  {
  }

  lemma {:induction false} DepartFromKeeps(s: SimState, i: nat)
    requires InTick(s) && i <= |s.vehicles|
    ensures WellFormed(s) && InTick(DepartFrom(s, i))
    ensures DepartFrom(s, i).lot.waiting == s.lot.waiting
    decreases |s.vehicles| - i
  {
    hide Shape, SpotsMatch, Fifo, Dated, DepartOne;
    InTickWellFormed(s);
    if i < |s.vehicles| {
      DepartOneKeeps(s, i);
      DepartFromKeeps(DepartOne(s, i), i + 1);
    }
  }

  /** The simulation state whose lot and records are those of a lot being drained. */
  function WithLot(s: SimState, lot: Lot, vs: seq<VehicleRec>): SimState {
    s.(lot := lot, vehicles := vs)
  }

  function DrainStep(s: SimState): SimState
    requires CanDrain(s.lot) && s.lot.waiting[0] < |s.vehicles|
  {
    var r := DrainOne(s.lot, s.vehicles, s.elapsed);
    WithLot(s, r.0, r.1)
  }

  function DrainAll(s: SimState): SimState
    requires WellFormed(s)
  {
    var r := Drain(s.lot, s.vehicles, s.elapsed);
    WithLot(s, r.0, r.1)
  }

  lemma DrainStepKeeps(s: SimState)
    requires InTick(s) && CanDrain(s.lot)
    ensures s.lot.waiting[0] == Head(s) < |s.vehicles|
    ensures InTick(DrainStep(s))
  {
    var r := DrainStep(s);
    TakeSpotMatches(s, s.lot.waiting[0], r);
    assert Fifo(r) by {
      assert forall k :: 0 <= k < |r.lot.waiting| ==> r.lot.waiting[k] == s.lot.waiting[k + 1];
    }
  }

  /** Draining keeps everything, ends with a settled lot, and moves vehicles from the queue to
      the lot one for one. */
  lemma {:induction false} DrainKeeps(s: SimState)
    requires InTick(s)
    ensures WellFormed(s) && InTick(DrainAll(s)) && Settled(DrainAll(s))
    ensures var count := Drain(s.lot, s.vehicles, s.elapsed).2;
            && |DrainAll(s).lot.waiting| == |s.lot.waiting| - count
            && DrainAll(s).lot.occupied == s.lot.occupied + count
    decreases |s.lot.waiting|
  {
    InTickWellFormed(s);
    if CanDrain(s.lot) {
      DrainStepKeeps(s);
      DrainKeeps(DrainStep(s));
    }
  }

  lemma RefillKeeps(s: SimState)
    requires InTick(s)
    ensures WellFormed(s) && InTick(Refill(s)) && Settled(Refill(s))
  {
    hide Shape, SpotsMatch, Fifo, Dated, Settled, Drain;
    DrainKeeps(s);
    BooksAreSeparate(DrainAll(s), Refill(s));
  }

  lemma AdvanceKeeps(s: SimState)
    requires InTick(s) && Settled(s)
    ensures WellFormed(s) && Boundary(Advance(s))
  {
    InTickWellFormed(s);
  }

  lemma SettleKeeps(s: SimState)
    requires InTick(s)
    ensures WellFormed(s) && InTick(Settle(s)) && Settled(Settle(s))
  {
    hide Shape, SpotsMatch, Fifo, Dated, Settled, DepartFrom, Refill;
    DepartFromKeeps(s, 0);
    var r := DepartFrom(s, 0);
    RefillKeeps(r);
    BooksAreSeparate(Refill(r), Settle(s));
  }

  /** A tick leads from one boundary to the next. */
  lemma TickKeeps(s: SimState, d: Draws)
    requires Boundary(s) && s.elapsed < s.config.durationSec
    ensures WellFormed(s) && Boundary(Tick(s, d)) && Tick(s, d).elapsed == s.elapsed + 1
    ensures Tick(s, d).config == s.config
  {
    ArriveKeeps(s, d);
    SettleKeeps(Arrive(s, d));
    AdvanceKeeps(Settle(Arrive(s, d)));
  }

  /** A number of ticks that the run still has room for. */
  predicate Fits(s: SimState, draws: seq<Draws>) {
    s.elapsed + |draws| <= s.config.durationSec
  }

  /** Every state of every run is a boundary. */
  lemma {:induction false} RunKeeps(s: SimState, draws: seq<Draws>)
    requires Boundary(s) && Fits(s, draws)
    ensures WellFormed(s) && Boundary(After(s, draws))
    ensures After(s, draws).elapsed == s.elapsed + |draws| && After(s, draws).config == s.config
    decreases |draws|
  {
    InTickWellFormed(s);
    if draws != [] {
      RunKeeps(s, draws[..|draws| - 1]);
      TickKeeps(After(s, draws[..|draws| - 1]), draws[|draws| - 1]);
    }
  }

  lemma RunBoundary(config: SimulationConfig, draw: Draw, draws: seq<Draws>)
    requires ValidateSimulationConfig(config) && |draws| <= config.durationSec
    ensures Boundary(After(Initial(config, draw), draws))
    ensures After(Initial(config, draw), draws).elapsed == |draws| && After(Initial(config, draw), draws).config == config
  {
    InitialBoundary(config, draw);
    RunKeeps(Initial(config, draw), draws);
  }
}
