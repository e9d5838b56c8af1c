/** Conservation over whole runs: every second a spot is occupied is, sooner or later, booked as
    parking time, and none is booked twice. */
module SpotSeconds {
  import opened Words
  import opened Configuration
  import opened Vehicles
  import opened Parkings
  import opened Statistics
  import opened Simulations
  import opened Invariants
  import opened Evolution
  import opened Timing

  /** The seconds that the vehicles still parked have been parked so far. */
  function Unbooked(vs: seq<VehicleRec>, n: nat, now: int): int
    requires n <= |vs|
  {
    if n == 0 then 0 else Unbooked(vs, n - 1, now) + Share(vs[n - 1], now)
  }

  function Share(v: VehicleRec, now: int): int {
    if v.state.Parked? then now - v.ParkTick() else 0
  }

  lemma {:induction false} UnbookedUpdate(vs: seq<VehicleRec>, n: nat, now: int, i: nat, v: VehicleRec)
    requires i < |vs| && n <= |vs|
    ensures Unbooked(vs[i := v], n, now)
            == Unbooked(vs, n, now) + if i < n then Share(v, now) - Share(vs[i], now) else 0
  {
    if n > 0 {
      UnbookedUpdate(vs, n - 1, now, i, v);
    }
  }

  lemma {:induction false} UnbookedPrefix(vs: seq<VehicleRec>, ws: seq<VehicleRec>, n: nat, now: int)
    requires n <= |vs| && n <= |ws| && forall i :: 0 <= i < n ==> vs[i] == ws[i]
    ensures Unbooked(vs, n, now) == Unbooked(ws, n, now)
  {
    if n > 0 {
      UnbookedPrefix(vs, ws, n - 1, now);
    }
  }

  lemma {:induction false} UnbookedIsPositive(vs: seq<VehicleRec>, n: nat, now: int)
    requires n <= |vs| && forall i :: 0 <= i < |vs| && vs[i].state.Parked? ==> vs[i].ParkTick() <= now
    ensures Unbooked(vs, n, now) >= 0
  {
    if n > 0 {
      UnbookedIsPositive(vs, n - 1, now);
    }
  }

  lemma {:induction false} OneSecondLater(vs: seq<VehicleRec>, n: nat, now: int)
    requires n <= |vs|
    ensures Unbooked(vs, n, now + 1) == Unbooked(vs, n, now) + ParkedCount(vs, n)
  {
    if n > 0 {
      OneSecondLater(vs, n - 1, now);
    }
  }

  function Total(s: SimState): int {
    s.stats.totalParkingTime + Unbooked(s.vehicles, |s.vehicles|, s.elapsed)
  }

  // ---------------------------------------------------------------- the phases conserve

  /** Who parks on arrival has not been parked for any time yet. */
  lemma ArrivedNow(m: SimState, i: nat, s: SimState)
    requires TimedTick(m, 0) && Adds(s, m) && |s.vehicles| <= i < |m.vehicles| && m.elapsed == s.elapsed
    ensures Share(m.vehicles[i], s.elapsed) == 0
  {
    assert Arrived(m.vehicles[i], s.elapsed, s.config.mode);
  }

  lemma ArriveConserves(s: SimState, d: Draws)
    requires TimedTick(s, 0) && Settled(s) && WellFormed(s) && StaysFit(Arrive(s, d))
    ensures Total(Arrive(s, d)) == Total(s)
  {
    InTickWellFormed(s);
    if ArrivalDue(s) {
      UnbookedPrefix(s.vehicles, Arrive(s, d).vehicles, |s.vehicles|, s.elapsed);
      ArriveTimed(s, d);
      ArriveAdds(s, d);
      ArrivedNow(Arrive(s, d), |s.vehicles|, s);
      hide InTick, Shape, SpotsMatch, Fifo, Timely, Settled, Dated;
    }
  }

  lemma DepartOneConserves(s: SimState, i: nat)
    requires TimedTick(s, i) && i < |s.vehicles| && Total(s) < TWO64
    ensures WellFormed(s) && Total(DepartOne(s, i)) == Total(s)
  {
    InTickWellFormed(s);
    var v := s.vehicles[i];
    if v.ShouldDepart(s.elapsed) {
      UnbookedUpdate(s.vehicles, |s.vehicles|, s.elapsed, i, v.Leave());
      UnbookedIsPositive(s.vehicles[i := v.Leave()], |s.vehicles|, s.elapsed);
    }
  }

  lemma {:induction false} DepartFromConserves(s: SimState, i: nat)
    requires TimedTick(s, i) && i <= |s.vehicles| && Total(s) < TWO64
    ensures WellFormed(s) && Total(DepartFrom(s, i)) == Total(s)
    decreases |s.vehicles| - i
  {
    hide Shape, SpotsMatch, Fifo, Timely, DepartOne, Unbooked;
    InTickWellFormed(s);
    if i < |s.vehicles| {
      DepartOneTimed(s, i);
      DepartOneConserves(s, i);
      DepartFromConserves(DepartOne(s, i), i + 1);
    }
  }

  lemma {:induction false} DrainConserves(s: SimState)
    requires TimedTick(s, |s.vehicles|)
    ensures WellFormed(s)
    ensures Unbooked(DrainAll(s).vehicles, |s.vehicles|, s.elapsed) == Unbooked(s.vehicles, |s.vehicles|, s.elapsed)
    decreases |s.lot.waiting|
  {
    InTickWellFormed(s);
    if CanDrain(s.lot) {
      DrainStepKeeps(s);
      DrainStepTimed(s);
      var key := s.lot.waiting[0];
      UnbookedUpdate(s.vehicles, |s.vehicles|, s.elapsed, key, DrainStep(s).vehicles[key]);
      DrainConserves(DrainStep(s));
    }
  }

  lemma SettleConserves(s: SimState)
    requires TimedTick(s, 0) && Total(s) < TWO64
    ensures WellFormed(s) && Total(Settle(s)) == Total(s)
  {
    hide Shape, SpotsMatch, Fifo, Timely, Unbooked, DepartFrom, Drain;
    DepartFromTimed(s, 0);
    DepartFromConserves(s, 0);
    var m := DepartFrom(s, 0);
    DrainConserves(m);
    ParkedTimesBookNothing(m.stats, Drain(m.lot, m.vehicles, m.elapsed).2);
  }

  lemma AdvanceAddsOccupied(s: SimState)
    requires TimedTick(s, |s.vehicles|) && WellFormed(s)
    ensures Total(Advance(s)) == Total(s) + s.lot.occupied
  {
    OneSecondLater(s.vehicles, |s.vehicles|, s.elapsed);
  }

  lemma TickConserves(s: SimState, d: Draws)
    requires Timed(s) && s.elapsed < s.config.durationSec && Total(s) < TWO64
    requires WellFormed(s) && StaysFit(Tick(s, d))
    ensures Total(Tick(s, d)) == Total(s) + Tick(s, d).lot.occupied
  {
    ArrivalsFit(s, d);
    BoundaryInTick(s);
    ArriveTimed(s, d);
    ArriveConserves(s, d);
    var a := Arrive(s, d);
    hide Arrive, Shape, SpotsMatch, Fifo, Timely, Dated, StaysFit, Unbooked;
    SettleTimed(a);
    SettleConserves(a);
    AdvanceAddsOccupied(Settle(a));
    hide Settle;
  }

  /** The occupied spots, added up over the ticks of a run. */
  function Occupancy(s: SimState, draws: seq<Draws>): nat
    requires WellFormed(s)
  {
    if draws == [] then 0 else Occupancy(s, draws[..|draws| - 1]) + After(s, draws).lot.occupied
  }

  /** In every run whose departure times fit, the seconds booked and the seconds still to be booked add up to the occupied
      spots of all ticks; hence never more than all spots for all the time. */
  lemma SpotSecondsAreConserved(config: SimulationConfig, draw: Draw, draws: seq<Draws>)
    requires ValidateSimulationConfig(config) && |draws| <= config.durationSec
    requires StaysFit(After(Initial(config, draw), draws))
    ensures var s := After(Initial(config, draw), draws);
            && Occupancy(Initial(config, draw), draws)
               == s.stats.totalParkingTime + Unbooked(s.vehicles, |s.vehicles|, s.elapsed)
            && s.stats.totalParkingTime <= Occupancy(Initial(config, draw), draws)
            && Occupancy(Initial(config, draw), draws) <= config.parkingSpots * |draws|
  {
    InitialBoundary(config, draw);
    InitialTimed(config, draw);
    RunKeeps(Initial(config, draw), draws);
    RunTimed(Initial(config, draw), draws);
    ParkedInThePast(After(Initial(config, draw), draws));
    RunConserves(config, draw, draws);
    hide Initial, Boundary, Timely, StaysFit, Tick, Unbooked, Occupancy;
  }

  lemma {:induction false} RunConserves(config: SimulationConfig, draw: Draw, draws: seq<Draws>)
    requires ValidateSimulationConfig(config) && |draws| <= config.durationSec
    requires StaysFit(After(Initial(config, draw), draws))
    ensures Occupancy(Initial(config, draw), draws) == Total(After(Initial(config, draw), draws))
    ensures Occupancy(Initial(config, draw), draws) <= config.parkingSpots * |draws|
    decreases |draws|
  {
    var init := Initial(config, draw);
    InitialBoundary(config, draw);
    if draws == [] {
      NothingBooked(config, draw);
    } else {
      var early, d := draws[..|draws| - 1], draws[|draws| - 1];
      InitialTimed(config, draw);
      FitsBefore(init, draws);
      RunConserves(config, draw, early);
      RunKeeps(init, early);
      RunTimed(init, early);
      RunKeeps(init, draws);
      RunTimed(init, draws);
      BoundOnSpotSeconds(config.parkingSpots, |early|);
      TickConserves(After(init, early), d);
      ParkedInThePast(After(init, draws));
      OccupancyStep(init, draws);
      hide Initial, Boundary, Timely, StaysFit, Tick, Total, Occupancy, ValidateSimulationConfig, After;
    }
  }

  lemma OccupancyStep(s: SimState, draws: seq<Draws>)
    requires WellFormed(s) && draws != []
    ensures var early := draws[..|draws| - 1];
            && After(s, draws) == Tick(After(s, early), draws[|draws| - 1])
            && Occupancy(s, draws) == Occupancy(s, early) + After(s, draws).lot.occupied
  {
  }

  lemma NothingBooked(config: SimulationConfig, draw: Draw)
    requires ValidateSimulationConfig(config)
    ensures Total(Initial(config, draw)) == 0
  {
  }

  lemma BoundOnSpotSeconds(spots: nat, ticks: nat)
    requires spots <= MAX_PARKING_SPOTS && ticks <= MAX_SIMULATION_TIME
    ensures spots * ticks < TWO64 && spots * (ticks + 1) == spots * ticks + spots
  {
  }

  lemma ParkedInThePast(s: SimState)
    requires Timed(s)
    ensures Unbooked(s.vehicles, |s.vehicles|, s.elapsed) >= 0
    ensures s.lot.occupied <= |s.lot.spots| == s.config.parkingSpots
  {
    UnbookedIsPositive(s.vehicles, |s.vehicles|, s.elapsed);
  }
}
