/** What the snapshots say, field by field, in terms of the vehicles and of what has happened in
    the ticks so far. */
module History {
  import opened Words
  import opened Configuration
  import opened Vehicles
  import opened Parkings
  import opened Statistics
  import opened Simulations
  import opened Invariants
  import opened Ledger
  import opened Reports

  // ---------------------------------------------------------------- what happens in a tick

  function WaitingCount(vs: seq<VehicleRec>, n: nat): (r: nat)
    requires n <= |vs|
    ensures r <= n
  {
    if n == 0 then 0 else WaitingCount(vs, n - 1) + One(vs[n - 1].state.Waiting?)
  }

  /** The vehicles, from the i-th on, that are parked and whose time has come. */
  function DueFrom(vs: seq<VehicleRec>, i: nat, now: u32): nat
    requires i <= |vs|
    decreases |vs| - i
  {
    if i == |vs| then 0 else One(vs[i].state.Parked? && now >= vs[i].departureTime) + DueFrom(vs, i + 1, now)
  }

  /** Their parking times, added up. */
  function SecondsFrom(vs: seq<VehicleRec>, i: nat, now: u32): nat
    requires i <= |vs|
    decreases |vs| - i
  {
    if i == |vs| then 0
    else (if vs[i].state.Parked? && now >= vs[i].departureTime then vs[i].parkingDuration else 0) + SecondsFrom(vs, i + 1, now)
  }

  /** A vehicle arrives in the tick and is turned away. */
  predicate TurnsAway(s: SimState, d: Draws)
    requires WellFormed(s)
  {
    |Arrive(s, d).vehicles| > |s.vehicles| && Arrive(s, d).vehicles[|s.vehicles|].state.Left?
  }

  // ---------------------------------------------------------------- and in a run

  function Refusals(s: SimState, draws: seq<Draws>): nat
    requires WellFormed(s)
  {
    if draws == [] then 0
    else
      var early := draws[..|draws| - 1];
      Refusals(s, early) + One(TurnsAway(After(s, early), draws[|draws| - 1]))
  }

  function Departures(s: SimState, draws: seq<Draws>): nat
    requires WellFormed(s)
  {
    if draws == [] then 0
    else
      var early := draws[..|draws| - 1];
      var a := Arrive(After(s, early), draws[|draws| - 1]);
      Departures(s, early) + DueFrom(a.vehicles, 0, a.elapsed)
  }

  function DepartedSeconds(s: SimState, draws: seq<Draws>): nat
    requires WellFormed(s)
  {
    if draws == [] then 0
    else
      var early := draws[..|draws| - 1];
      var a := Arrive(After(s, early), draws[|draws| - 1]);
      DepartedSeconds(s, early) + SecondsFrom(a.vehicles, 0, a.elapsed)
  }

  // ---------------------------------------------------------------- the counters count it

  lemma {:induction false} DueBeyond(vs: seq<VehicleRec>, i: nat, k: nat, v: VehicleRec, now: u32)
    requires k < i <= |vs|
    ensures DueFrom(vs[k := v], i, now) == DueFrom(vs, i, now)
    ensures SecondsFrom(vs[k := v], i, now) == SecondsFrom(vs, i, now)
    decreases |vs| - i
  {
    if i < |vs| {
      DueBeyond(vs, i + 1, k, v, now);
    }
  }

  lemma ArriveCounts(s: SimState, d: Draws)
    requires InTick(s) && Balanced(s)
    ensures WellFormed(s)
    ensures var t := Arrive(s, d).stats;
            && t.totalLeftNoSpace == s.stats.totalLeftNoSpace + One(TurnsAway(s, d))
            && t.totalDeparted == s.stats.totalDeparted && t.totalParkingTime == s.stats.totalParkingTime
  {
    InTickWellFormed(s);
    hide SpotsMatch, Dated, FromQueueCount, RandomRange;
  }

  lemma DepartOneCounts(s: SimState, i: nat)
    requires InTick(s) && i < |s.vehicles| && Balanced(s) && Tallied(s)
    ensures WellFormed(s)
    ensures var t, due := DepartOne(s, i).stats, s.vehicles[i].state.Parked? && s.elapsed >= s.vehicles[i].departureTime;
            && t.totalDeparted == s.stats.totalDeparted + One(due)
            && t.totalParkingTime == s.stats.totalParkingTime + (if due then s.vehicles[i].parkingDuration else 0)
            && t.totalLeftNoSpace == s.stats.totalLeftNoSpace
    ensures DepartOne(s, i).vehicles == s.vehicles || DepartOne(s, i).vehicles == s.vehicles[i := s.vehicles[i].Leave()]
  {
    InTickWellFormed(s);
    hide Sums, Fifo, Dated, FromQueueCount;
    if s.vehicles[i].ShouldDepart(s.elapsed) {
      OneIsParked(s, i);
      SumsFit(s.stats.totalParkingCount, s.stats.totalParkingTime, s.config.minParkingTime, s.config.maxParkingTime);
    }
  }

  lemma {:induction false} DepartFromCounts(s: SimState, i: nat)
    requires InTick(s) && i <= |s.vehicles| && Balanced(s) && Stamped(s) && Tallied(s)
    ensures WellFormed(s)
    ensures var t := DepartFrom(s, i).stats;
            && t.totalDeparted == s.stats.totalDeparted + DueFrom(s.vehicles, i, s.elapsed)
            && t.totalParkingTime == s.stats.totalParkingTime + SecondsFrom(s.vehicles, i, s.elapsed)
            && t.totalLeftNoSpace == s.stats.totalLeftNoSpace
    decreases |s.vehicles| - i
  {
    hide Shape, SpotsMatch, Fifo, Dated, DepartOne, Balanced, Stamped, Tallied;
    InTickWellFormed(s);
    if i < |s.vehicles| {
      DepartOneKeeps(s, i);
      DepartOneBalances(s, i);
      DepartOneTallies(s, i);
      DepartOneCounts(s, i);
      DepartFromCounts(DepartOne(s, i), i + 1);
      DueBeyond(s.vehicles, i + 1, i, s.vehicles[i].Leave(), s.elapsed);
    }
  }

  lemma TickCounts(s: SimState, d: Draws)
    requires Boundary(s) && s.elapsed < s.config.durationSec && Balanced(s) && Stamped(s) && Tallied(s)
    ensures WellFormed(s)
    ensures var a, t := Arrive(s, d), Tick(s, d).stats;
            && t.totalLeftNoSpace == s.stats.totalLeftNoSpace + One(TurnsAway(s, d))
            && t.totalDeparted == s.stats.totalDeparted + DueFrom(a.vehicles, 0, a.elapsed)
            && t.totalParkingTime == s.stats.totalParkingTime + SecondsFrom(a.vehicles, 0, a.elapsed)
  {
    ArriveKeeps(s, d);
    ArriveBalances(s, d);
    ArriveTallies(s, d);
    ArriveCounts(s, d);
    var a := Arrive(s, d);
    hide Shape, SpotsMatch, Fifo, Dated, DepartFrom, Drain, Arrive, Balanced, Stamped, Tallied, TurnsAway;
    DepartFromCounts(a, 0);
    var m := DepartFrom(a, 0);
    ParkedTimesBookNothing(m.stats, Drain(m.lot, m.vehicles, m.elapsed).2);
  }

  lemma NothingCounted(config: SimulationConfig, draw: Draw)
    requires ValidateSimulationConfig(config)
    ensures var t := Initial(config, draw).stats;
            t.totalLeftNoSpace == 0 && t.totalDeparted == 0 && t.totalParkingTime == 0
  {
  }

  /** At every boundary of every run the counters of refusals and departures are their numbers,
      and the total parking time is that of the departed. */
  lemma {:induction false} RunCounts(config: SimulationConfig, draw: Draw, draws: seq<Draws>)
    requires ValidateSimulationConfig(config) && |draws| <= config.durationSec
    ensures var t := After(Initial(config, draw), draws).stats;
            && t.totalLeftNoSpace == Refusals(Initial(config, draw), draws)
            && t.totalDeparted == Departures(Initial(config, draw), draws)
            && t.totalParkingTime == DepartedSeconds(Initial(config, draw), draws)
    decreases |draws|
  {
    hide Boundary, Balanced, Stamped, Tallied, Tick, Initial, TurnsAway;
    if draws == [] {
      NothingCounted(config, draw);
    } else {
      var early := draws[..|draws| - 1];
      RunCounts(config, draw, early);
      RunBoundary(config, draw, early);
      RunBalances(config, draw, early);
      RunTallies(config, draw, early);
      TickCounts(After(Initial(config, draw), early), draws[|draws| - 1]);
    }
  }

  // ---------------------------------------------------------------- the snapshots tell it

  lemma {:induction false} WaitersAreLast(vs: seq<VehicleRec>, head: nat, n: nat)
    requires head <= |vs| && n <= |vs|
    requires forall i :: 0 <= i < |vs| ==> (vs[i].state.Waiting? <==> i >= head)
    ensures WaitingCount(vs, n) == if n <= head then 0 else n - head
  {
    if n > 0 {
      WaitersAreLast(vs, head, n - 1);
    }
  }

  lemma WaitersAreQueued(s: SimState)
    requires Boundary(s)
    ensures WaitingCount(s.vehicles, |s.vehicles|) == |s.lot.waiting| <= 1000
  {
    WaitersAreLast(s.vehicles, Head(s), |s.vehicles|);
  }

  /** After the given ticks of a run, every field of a state. */
  ghost predicate TellsState(p: ParkingState, config: SimulationConfig, draw: Draw, draws: seq<Draws>)
    requires ValidateSimulationConfig(config)
  {
    var vs := After(Initial(config, draw), draws).vehicles;
    && p.totalSpots == config.parkingSpots && p.mode == config.mode
    && p.occupiedSpots == ParkedCount(vs, |vs|) && p.waitingVehicles == WaitingCount(vs, |vs|)
    && p.elapsedTime == |draws| && p.remainingTime == config.durationSec - |draws|
  }

  /** Every field of a statistics report about these vehicles, given the numbers of refusals and
      departures so far and the parking times of the departed. */
  ghost predicate IsAbout(r: Report, vs: seq<VehicleRec>, spots: nat, refusals: nat, departures: nat, seconds: nat) {
    && r.totalArrivals == |vs|
    && r.totalLeftNoSpace == refusals
    && r.totalDeparted == departures
    && r.currentParked == ParkedCount(vs, |vs|)
    && r.currentWaiting == WaitingCount(vs, |vs|)
    && r.totalParked == |vs| - refusals - r.currentWaiting
    && r.avgParkingTime * departures as real == seconds as real
    && (departures == 0 ==> r.avgParkingTime == 0.0)
    && r.avgWaitTime == (if FromQueueCount(vs, |vs|) > 0 then 1.0 else 0.0)
    && r.occupancyRate * spots as real == 100.0 * ParkedCount(vs, |vs|) as real
  }

  /** And every field of a statistics report. */
  ghost predicate TellsReport(r: Report, config: SimulationConfig, draw: Draw, draws: seq<Draws>)
    requires ValidateSimulationConfig(config)
  {
    var init := Initial(config, draw);
    IsAbout(r, After(init, draws).vehicles, config.parkingSpots,
            Refusals(init, draws), Departures(init, draws), DepartedSeconds(init, draws))
  }

  lemma StateTells(s: SimState)
    requires Boundary(s)
    ensures var p := StateSnapshot(s);
            && p.totalSpots == s.config.parkingSpots && p.mode == s.config.mode
            && p.occupiedSpots == ParkedCount(s.vehicles, |s.vehicles|)
            && p.waitingVehicles == WaitingCount(s.vehicles, |s.vehicles|)
            && p.elapsedTime == s.elapsed && p.remainingTime == s.config.durationSec - s.elapsed
  {
    WaitersAreQueued(s);
  }

  lemma CountersTell(s: SimState)
    requires Boundary(s) && Balanced(s)
    ensures var r := StatsSnapshot(s);
            && r.totalArrivals == |s.vehicles|
            && r.currentParked == ParkedCount(s.vehicles, |s.vehicles|)
            && r.currentWaiting == WaitingCount(s.vehicles, |s.vehicles|)
            && r.totalParked == |s.vehicles| - r.totalLeftNoSpace - r.currentWaiting
            && r.totalLeftNoSpace == s.stats.totalLeftNoSpace && r.totalDeparted == s.stats.totalDeparted
  {
    WaitersAreQueued(s);
  }

  /** The reported average times the number of departures is the total. */
  lemma AverageTells(s: SimState)
    requires Balanced(s) && (s.stats.totalDeparted == 0 ==> s.stats.totalParkingTime == 0)
    ensures StatsSnapshot(s).avgParkingTime * s.stats.totalDeparted as real == s.stats.totalParkingTime as real
    ensures s.stats.totalDeparted == 0 ==> StatsSnapshot(s).avgParkingTime == 0.0
  {
    if s.stats.totalDeparted > 0 {
      RatioTimes(s.stats.totalParkingTime, s.stats.totalDeparted);
    }
  }

  lemma NoneDepartedNoTime(s: SimState)
    requires Balanced(s) && Tallied(s)
    ensures s.stats.totalDeparted == 0 ==> s.stats.totalParkingTime == 0
  {
  }

  lemma StateSnapshotTells(config: SimulationConfig, draw: Draw, draws: seq<Draws>)
    requires ValidateSimulationConfig(config) && |draws| <= config.durationSec
    ensures TellsState(StateSnapshot(After(Initial(config, draw), draws)), config, draw, draws)
  {
    hide Boundary, After, Initial, StateSnapshot;
    RunBoundary(config, draw, draws);
    StateTells(After(Initial(config, draw), draws));
  }

  lemma ReportIsAbout(s: SimState)
    requires Boundary(s) && Balanced(s) && Stamped(s) && Tallied(s)
    ensures IsAbout(StatsSnapshot(s), s.vehicles, s.config.parkingSpots,
                    s.stats.totalLeftNoSpace, s.stats.totalDeparted, s.stats.totalParkingTime)
  {
    hide Boundary, Balanced, Stamped, Tallied, StatsSnapshot, FromQueueCount;
    CountersTell(s);
    NoneDepartedNoTime(s);
    AverageTells(s);
    AverageWait(s);
    OccupancyRate(s);
  }

  lemma ReportTells(config: SimulationConfig, draw: Draw, draws: seq<Draws>)
    requires ValidateSimulationConfig(config) && |draws| <= config.durationSec
    ensures TellsReport(StatsSnapshot(After(Initial(config, draw), draws)), config, draw, draws)
  {
    hide Boundary, Balanced, Stamped, Tallied, After, Initial, StatsSnapshot, Refusals, Departures, DepartedSeconds, IsAbout;
    RunBoundary(config, draw, draws);
    RunBalances(config, draw, draws);
    RunTallies(config, draw, draws);
    RunCounts(config, draw, draws);
    ReportIsAbout(After(Initial(config, draw), draws));
  }

  /** Both snapshots taken at any boundary of any run tell what has happened so far. */
  lemma SnapshotsTell(config: SimulationConfig, draw: Draw, draws: seq<Draws>)
    requires ValidateSimulationConfig(config) && |draws| <= config.durationSec
    ensures TellsState(StateSnapshot(After(Initial(config, draw), draws)), config, draw, draws)
    ensures TellsReport(StatsSnapshot(After(Initial(config, draw), draws)), config, draw, draws)
  {
    hide TellsState, TellsReport;
    StateSnapshotTells(config, draw, draws);
    ReportTells(config, draw, draws);
  }
}
