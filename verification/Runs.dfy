/** A simulation object from its creation to the end of its thread, as server_create_simulation
    and the thread drive it, with nobody else at its locks. */
module Runs {
  import opened Configuration
  import opened Simulations
  import opened Invariants
  import opened Timing
  import opened Schedule
  import opened Ledger
  import opened Reports
  import opened History
  import opened Bookings

  /** Everything proved of a simulation that has come through whole ticks. */
  ghost predicate KeepsAll(s: SimState) {
    && Boundary(s) && Balanced(s) && Stamped(s) && Tallied(s)
    && (StaysFit(s) ==> Timed(s) && Scheduled(s) && Booked(s))
  }

  lemma WholeTicksKeepAll(config: SimulationConfig, draw: Draw, draws: seq<Draws>, n: nat, s: SimState)
    requires ValidateSimulationConfig(config) && n <= |draws| <= config.durationSec
    requires Reaches(Initial(config, draw), draws, n, s)
    ensures KeepsAll(s) && s.elapsed == n
    ensures TellsState(StateSnapshot(s), config, draw, draws[..n]) && TellsReport(StatsSnapshot(s), config, draw, draws[..n])
  {
    hide TellsState, TellsReport, StateSnapshot, StatsSnapshot;
    SnapshotsTell(config, draw, draws[..n]);
    hide After, Boundary, Timed, StaysFit, Scheduled, Balanced, Stamped, Tallied, Booked;
    InitialBoundary(config, draw);
    RunKeeps(Initial(config, draw), draws[..n]);
    RunBalances(config, draw, draws[..n]);
    RunTallies(config, draw, draws[..n]);
    if StaysFit(s) {
      RunSchedules(config, draw, draws[..n]);
      RunBooks(config, draw, draws[..n]);
    }
  }

  /** From a new simulation the thread completes as many ticks as the loop test allows, up to
      the duration, and leaves the object with every property proved of whole ticks. */
  method CompleteRun(sim: Simulation, config: SimulationConfig, draw: Draw, draws: seq<Draws>, stopAfter: nat)
    requires ValidateSimulationConfig(config) && |draws| == config.durationSec
    requires sim.Valid() && sim.Value() == Initial(config, draw)
    modifies sim, sim.vehicles, sim.stats, sim.parking, sim.parking.spots, sim.parking.queue, sim.Dynamic()
    ensures sim.Valid() && !sim.running && KeepsAll(sim.Value())
    ensures sim.Value().elapsed == if stopAfter < |draws| then stopAfter else |draws|
    ensures Reaches(Initial(config, draw), draws, sim.Value().elapsed, sim.Value())
    ensures TellsState(StateSnapshot(sim.Value()), config, draw, draws[..sim.Value().elapsed])
    ensures TellsReport(StatsSnapshot(sim.Value()), config, draw, draws[..sim.Value().elapsed])
  {
    hide TellsState, TellsReport, KeepsAll, Reaches, ValidateSimulationConfig, ConsistentState, ConsistentReport, StateSnapshot, StatsSnapshot;
    assert sim.elapsedTime == 0 && sim.config == config;
    sim.ThreadFunc(draws, stopAfter);
    WholeTicksKeepAll(config, draw, draws, if stopAfter < |draws| then stopAfter else |draws|, sim.Value());
  }

  /** What the two snapshot functions then return is consistent. */
  method Observe(sim: Simulation) returns (state: ParkingState, report: Report)
    requires sim.Valid() && KeepsAll(sim.Value())
    ensures state == StateSnapshot(sim.Value()) && ConsistentState(state, sim.config)
    ensures report == StatsSnapshot(sim.Value()) && ConsistentReport(report, sim.config)
  {
    hide StateSnapshot, StatsSnapshot, ConsistentState, ConsistentReport, Boundary, Timed, StaysFit, Scheduled, Balanced, Stamped, Tallied, Booked;
    state := sim.GetState();
    report := sim.GetStatistics();
    StateIsConsistent(sim.Value());
    ReportIsConsistent(sim.Value());
  }
}
