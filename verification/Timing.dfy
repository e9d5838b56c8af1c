/** The clock of the vehicle records, in runs in which no departure time wraps around. */
module Timing {
  import opened Words
  import opened Configuration
  import opened Vehicles
  import opened Parkings
  import opened Simulations
  import opened Invariants
  import opened Evolution

  /** Whenever the vehicles created so far park, their departure times fit in 32 bits. */
  ghost predicate StaysFit(s: SimState) {
    forall i :: 0 <= i < |s.vehicles| ==> s.config.durationSec + s.vehicles[i].parkingDuration <= TWO32
  }

  /** Before the departure scan has passed a vehicle in the current tick, a parked one departs at
      this tick or later and one that left did so earlier; after the scan the border moves by one.
      No vehicle parked at limit or later. */
  ghost predicate OnTime(v: VehicleRec, mode: u32, border: int, limit: int) {
    match v.state
    case Waiting => true
    case Parked => v.arrivalTime <= v.ParkTick() < limit && v.departureTime >= border
    case Left =>
      if v.departureTime == 0 then mode == NO_WAIT
      else v.arrivalTime <= v.ParkTick() < limit && v.departureTime < border
  }

  ghost predicate Timely(s: SimState, scanned: nat, limit: int) {
    forall i :: 0 <= i < |s.vehicles| ==>
      OnTime(s.vehicles[i], s.lot.mode, s.elapsed + One(i < scanned), limit)
  }

  /** Within a tick whose departure scan has passed the first vehicles. */
  ghost predicate TimedTick(s: SimState, scanned: nat) {
    InTick(s) && StaysFit(s) && Timely(s, scanned, s.elapsed + 1)
  }

  /** Between two ticks. */
  ghost predicate Timed(s: SimState) {
    Boundary(s) && StaysFit(s) && Timely(s, 0, s.elapsed)
  }

  /** The validation does not imply it, but this does. */
  lemma ParkingTimesFitStays(s: SimState)
    requires Shape(s) && ParkingTimesFit(s.config)
    ensures StaysFit(s)
  {
  }

  lemma InitialTimed(config: SimulationConfig, draw: Draw)
    requires ValidateSimulationConfig(config)
    ensures Timed(Initial(config, draw))
  {
    InitialBoundary(config, draw);
  }

  // ---------------------------------------------------------------- the phases

  lemma ArrivedOnTime(w: VehicleRec, now: u32, mode: u32, duration: int)
    requires Arrived(w, now, mode) && now < duration && duration + w.parkingDuration <= TWO32 && w.parkingDuration > 0
    ensures OnTime(w, mode, now, now + 1)
  {
  }

  lemma ArriveTimed(s: SimState, d: Draws)
    requires TimedTick(s, 0) && Settled(s) && WellFormed(s) && StaysFit(Arrive(s, d))
    ensures TimedTick(Arrive(s, d), 0)
  {
    ArriveKeeps(s, d);
    ArriveAdds(s, d);
    AddsOnTime(s, Arrive(s, d));
    hide SpotsMatch, Fifo, Dated, Settled, Arrive, Timely, StaysFit;
  }

  lemma AddsOnTime(s: SimState, m: SimState)
    requires TimedTick(s, 0) && Adds(s, m) && InTick(m) && StaysFit(m)
    requires m.elapsed == s.elapsed && m.config == s.config
    ensures Timely(m, 0, m.elapsed + 1)
  {
    hide SpotsMatch, Fifo, Dated, OnTime;
    forall i | 0 <= i < |m.vehicles|
      ensures OnTime(m.vehicles[i], m.lot.mode, m.elapsed + One(i < 0), m.elapsed + 1)
    {
      if i >= |s.vehicles| {
        ArrivedOnTime(m.vehicles[i], s.elapsed, s.config.mode, s.config.durationSec);
      }
    }
  }

  lemma DepartOneTimed(s: SimState, i: nat)
    requires TimedTick(s, i) && i < |s.vehicles|
    ensures WellFormed(s) && TimedTick(DepartOne(s, i), i + 1)
  {
    DepartOneKeeps(s, i);
    DepartOneExactly(s, i);
    hide SpotsMatch, Fifo, Dated, Shape;
  }

  lemma {:induction false} DepartFromTimed(s: SimState, i: nat)
    requires TimedTick(s, i) && i <= |s.vehicles|
    ensures WellFormed(s) && TimedTick(DepartFrom(s, i), |s.vehicles|)
    decreases |s.vehicles| - i
  {
    hide Shape, SpotsMatch, Fifo, Dated, Timely, StaysFit, DepartOne;
    InTickWellFormed(s);
    if i < |s.vehicles| {
      DepartOneTimed(s, i);
      DepartFromTimed(DepartOne(s, i), i + 1);
    }
  }

  lemma DrainStepTimed(s: SimState)
    requires TimedTick(s, |s.vehicles|) && CanDrain(s.lot)
    ensures s.lot.waiting[0] < |s.vehicles| && TimedTick(DrainStep(s), |s.vehicles|)
  {
    DrainStepKeeps(s);
    DrainStepAdmits(s);
    hide SpotsMatch, Fifo, DrainStep;
    var r := DrainStep(s);
    SameSettings(s);
    forall i | 0 <= i < |r.vehicles|
      ensures OnTime(r.vehicles[i], r.lot.mode, r.elapsed + 1, r.elapsed + 1)
      ensures r.config.durationSec + r.vehicles[i].parkingDuration <= TWO32
    {
      assert Admits(s.vehicles[i], r.vehicles[i], s.elapsed);
    }
  }

  lemma SameSettings(s: SimState)
    requires CanDrain(s.lot) && s.lot.waiting[0] < |s.vehicles|
    ensures var r := DrainStep(s);
            r.config == s.config && r.elapsed == s.elapsed && r.lot.mode == s.lot.mode && |r.vehicles| == |s.vehicles|
  {
  }

  lemma {:induction false} DrainTimed(s: SimState)
    requires TimedTick(s, |s.vehicles|)
    ensures WellFormed(s) && TimedTick(DrainAll(s), |s.vehicles|)
    decreases |s.lot.waiting|
  {
    hide Shape, SpotsMatch, Fifo, Dated, Timely, StaysFit;
    InTickWellFormed(s);
    if CanDrain(s.lot) {
      DrainStepTimed(s);
      DrainTimed(DrainStep(s));
    }
  }

  lemma SettleTimed(s: SimState)
    requires TimedTick(s, 0)
    ensures WellFormed(s) && TimedTick(Settle(s), |s.vehicles|)
  {
    hide Shape, SpotsMatch, Fifo, Dated, DepartFrom, Drain;
    SettleKeeps(s);
    DepartFromTimed(s, 0);
    DrainTimed(DepartFrom(s, 0));
  }

  // ---------------------------------------------------------------- ticks and runs

  /** What fits at the end of a tick fits before it. */
  lemma StaysFitEarlier(s: SimState, r: SimState)
    requires Succeeds(s, r) && r.config == s.config && StaysFit(r)
    ensures StaysFit(s)
  {
    forall i | 0 <= i < |s.vehicles|
      ensures s.config.durationSec + s.vehicles[i].parkingDuration <= TWO32
    {
      assert Evolves(s.vehicles[i], r.vehicles[i], s.elapsed);
    }
  }

  lemma ArrivalsFit(s: SimState, d: Draws)
    requires Boundary(s) && s.elapsed < s.config.durationSec && WellFormed(s) && StaysFit(Tick(s, d))
    ensures StaysFit(Arrive(s, d))
  {
    ArriveKeeps(s, d);
    SettleEvolves(Arrive(s, d));
    var a, r := Arrive(s, d), Tick(s, d);
    assert r.config == a.config;
    hide Arrive, Settle, Boundary;
    forall i | 0 <= i < |a.vehicles|
      ensures a.config.durationSec + a.vehicles[i].parkingDuration <= TWO32
    {
      assert Evolves(a.vehicles[i], r.vehicles[i], s.elapsed);
    }
  }

  lemma TickTimed(s: SimState, d: Draws)
    requires Timed(s) && s.elapsed < s.config.durationSec && WellFormed(s) && StaysFit(Tick(s, d))
    ensures Timed(Tick(s, d))
  {
    TickKeeps(s, d);
    ArrivalsFit(s, d);
    hide Shape, SpotsMatch, Fifo, Settled, Arrive, Settle;
    ArriveKeeps(s, d);
    BoundaryInTick(s);
    ArriveTimed(s, d);
    SettleTimed(Arrive(s, d));
    AdvanceTimed(Settle(Arrive(s, d)));
  }

  lemma BoundaryInTick(s: SimState)
    requires Timed(s) && s.elapsed < s.config.durationSec
    ensures TimedTick(s, 0)
  {
    hide SpotsMatch, Fifo, Settled;
  }

  lemma AdvanceTimed(s: SimState)
    requires TimedTick(s, |s.vehicles|) && WellFormed(s)
    ensures Timely(Advance(s), 0, Advance(s).elapsed)
  {
    hide SpotsMatch, Fifo, Dated;
  }

  /** In a run, what fits at its end fits at every earlier boundary. */
  lemma FitsBefore(s: SimState, draws: seq<Draws>)
    requires Boundary(s) && Fits(s, draws) && draws != [] && WellFormed(s) && StaysFit(After(s, draws))
    ensures StaysFit(After(s, draws[..|draws| - 1]))
  {
    var early := draws[..|draws| - 1];
    RunKeeps(s, early);
    RunKeeps(s, draws);
    TickSucceeds(After(s, early), draws[|draws| - 1]);
    hide Boundary, Tick, StaysFit;
    StaysFitEarlier(After(s, early), After(s, draws));
  }

  /** Every state of every run whose departure times fit is timed. */
  lemma {:induction false} RunTimed(s: SimState, draws: seq<Draws>)
    requires Timed(s) && Fits(s, draws) && WellFormed(s) && StaysFit(After(s, draws))
    ensures Timed(After(s, draws)) && After(s, draws).elapsed == s.elapsed + |draws|
    decreases |draws|
  {
    RunKeeps(s, draws);
    if draws != [] {
      var early := draws[..|draws| - 1];
      FitsBefore(s, draws);
      RunTimed(s, early);
      RunKeeps(s, early);
      hide Boundary, Timely, StaysFit, Tick;
      TickTimed(After(s, early), draws[|draws| - 1]);
    }
  }
}
