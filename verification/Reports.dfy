/** What a client may rely on in the two snapshots, whichever boundary they were taken at. */
module Reports {
  import opened Words
  import opened Configuration
  import opened Vehicles
  import opened Parkings
  import opened Statistics
  import opened Simulations
  import opened Invariants
  import opened Ledger

  // ---------------------------------------------------------------- the totals

  /** A number of parking times, each between the two bounds, may add up to this. */
  predicate Sums(count: nat, total: nat, min: nat, max: nat) {
    count * min <= total <= count * max
  }

  lemma SumsOneMore(count: nat, total: nat, min: nat, max: nat, x: nat)
    requires Sums(count, total, min, max) && min <= x <= max
    ensures Sums(count + 1, total + x, min, max)
  {
    OneMore(count, min);
    OneMore(count, max);
  }

  lemma SumsFit(count: nat, total: nat, min: nat, max: nat)
    requires Sums(count, total, min, max) && count <= MAX_SIM_VEHICLES && max < TWO32
    ensures total + TWO32 < TWO64
  {
    assert count * max <= MAX_SIM_VEHICLES * max;
  }

  /** The total parking time is that of so many stays; in the waiting mode nobody is refused. */
  predicate Tallied(s: SimState) {
    && Sums(s.stats.totalParkingCount, s.stats.totalParkingTime, s.config.minParkingTime, s.config.maxParkingTime)
    && (s.config.mode == WITH_WAIT ==> s.stats.totalLeftNoSpace == 0)
  }

  lemma ArriveTallies(s: SimState, d: Draws)
    requires InTick(s) && Tallied(s)
    ensures WellFormed(s) && Tallied(Arrive(s, d))
  {
    InTickWellFormed(s);
    hide Sums, SpotsMatch, Fifo, Dated;
  }

  lemma DepartOneTallies(s: SimState, i: nat)
    requires InTick(s) && i < |s.vehicles| && Balanced(s) && Tallied(s)
    ensures WellFormed(s) && Tallied(DepartOne(s, i))
  {
    InTickWellFormed(s);
    hide Sums, Fifo, Dated, FromQueueCount;
    var v := s.vehicles[i];
    if v.ShouldDepart(s.elapsed) {
      OneIsParked(s, i);
      var low, high := s.config.minParkingTime, s.config.maxParkingTime;
      SumsFit(s.stats.totalParkingCount, s.stats.totalParkingTime, low, high);
      SumsOneMore(s.stats.totalParkingCount, s.stats.totalParkingTime, low, high, v.parkingDuration);
    }
  }

  lemma {:induction false} DepartFromTallies(s: SimState, i: nat)
    requires InTick(s) && i <= |s.vehicles| && Balanced(s) && Stamped(s) && Tallied(s)
    ensures WellFormed(s) && Tallied(DepartFrom(s, i))
    decreases |s.vehicles| - i
  {
    hide Shape, SpotsMatch, Fifo, Dated, DepartOne, Balanced, Stamped, Tallied;
    InTickWellFormed(s);
    if i < |s.vehicles| {
      DepartOneKeeps(s, i);
      DepartOneBalances(s, i);
      DepartOneTallies(s, i);
      DepartFromTallies(DepartOne(s, i), i + 1);
    }
  }

  lemma TickTallies(s: SimState, d: Draws)
    requires Boundary(s) && s.elapsed < s.config.durationSec && Balanced(s) && Stamped(s) && Tallied(s)
    ensures WellFormed(s) && Tallied(Tick(s, d))
  {
    ArriveKeeps(s, d);
    ArriveBalances(s, d);
    ArriveTallies(s, d);
    var a := Arrive(s, d);
    hide Shape, SpotsMatch, Fifo, Dated, DepartFrom, Drain, Arrive, Balanced, Stamped, Sums;
    DepartFromKeeps(a, 0);
    DepartFromTallies(a, 0);
    var m := DepartFrom(a, 0);
    ParkedTimesBookNothing(m.stats, Drain(m.lot, m.vehicles, m.elapsed).2);
  }

  lemma NothingTallied(config: SimulationConfig, draw: Draw)
    requires ValidateSimulationConfig(config)
    ensures Tallied(Initial(config, draw))
  {
  }

  lemma {:induction false} RunTallies(config: SimulationConfig, draw: Draw, draws: seq<Draws>)
    requires ValidateSimulationConfig(config) && |draws| <= config.durationSec
    ensures Tallied(After(Initial(config, draw), draws))
    decreases |draws|
  {
    hide Boundary, Balanced, Stamped, Tallied, Tick;
    InitialBoundary(config, draw);
    if draws == [] {
      NothingTallied(config, draw);
    } else {
      var early := draws[..|draws| - 1];
      RunTallies(config, draw, early);
      RunKeeps(Initial(config, draw), early);
      RunBalances(config, draw, early);
      TickTallies(After(Initial(config, draw), early), draws[|draws| - 1]);
    }
  }

  // ---------------------------------------------------------------- the snapshots

  /** A state snapshot is consistent: no more spots taken than there are, nobody waiting beside
      a free spot or in the no-wait mode, and a clock that adds up to the duration. */
  predicate ConsistentState(p: ParkingState, c: SimulationConfig) {
    && p.totalSpots == c.parkingSpots && p.occupiedSpots <= p.totalSpots
    && (p.waitingVehicles > 0 ==> p.occupiedSpots == p.totalSpots && p.mode == WITH_WAIT)
    && p.elapsedTime + p.remainingTime == c.durationSec
    && p.mode == c.mode
  }

  /** A statistics snapshot adds up, and its averages are those of whole stays. */
  predicate ConsistentReport(r: Report, c: SimulationConfig) {
    && r.totalArrivals == r.totalParked + r.totalLeftNoSpace + r.currentWaiting
    && r.totalParked == r.totalDeparted + r.currentParked
    && (c.mode == WITH_WAIT ==> r.totalLeftNoSpace == 0)
    && (c.mode == NO_WAIT ==> r.currentWaiting == 0 && r.avgWaitTime == 0.0)
    && (r.totalDeparted == 0 ==> r.avgParkingTime == 0.0)
    && (r.totalDeparted > 0 ==>
          c.minParkingTime as real <= r.avgParkingTime <= c.maxParkingTime as real)
    && (r.avgWaitTime == 0.0 || r.avgWaitTime == 1.0)
    && r.occupancyRate * c.parkingSpots as real == 100.0 * r.currentParked as real
    && 0.0 <= r.occupancyRate <= 100.0
  }

  lemma StateIsConsistent(s: SimState)
    requires Boundary(s)
    ensures ConsistentState(StateSnapshot(s), s.config)
    ensures StateSnapshot(s).waitingVehicles == |s.lot.waiting| && StateSnapshot(s).elapsedTime == s.elapsed
  {
  }

  lemma RealTimesMonotone(a: real, b: real, x: real)
    requires x > 0.0
    ensures a <= b <==> a * x <= b * x
  {
  }

  lemma RatioTimes(sum: int, count: nat)
    requires count > 0
    ensures Ratio(sum, count) * count as real == sum as real
  {
  }

  lemma ProductAsReal(a: int, b: int)
    ensures (a * b) as real == a as real * b as real
  {
  }

  lemma QuotientBounds(sum: nat, count: nat, low: nat, high: nat)
    requires count > 0 && count * low <= sum <= count * high
    ensures low as real <= Ratio(sum, count) <= high as real
  {
    RatioTimes(sum, count);
    hide Ratio;
    ProductAsReal(count, low);
    ProductAsReal(count, high);
    RealTimesMonotone(low as real, Ratio(sum, count), count as real);
    RealTimesMonotone(Ratio(sum, count), high as real, count as real);
  }

  lemma SelfRatio(x: nat)
    requires x > 0
    ensures Ratio(x, x) == 1.0
  {
  }

  lemma Percentage(part: nat, whole: nat)
    requires whole > 0 && part <= whole
    ensures Ratio(part, whole) * 100.0 * whole as real == 100.0 * part as real
    ensures 0.0 <= Ratio(part, whole) * 100.0 <= 100.0
  {
    RatioTimes(part, whole);
    QuotientBounds(part, whole, 0, 1);
    hide Ratio;
    assert Ratio(part, whole) * 100.0 * whole as real == 100.0 * (Ratio(part, whole) * whole as real);
  }

  lemma {:induction false} NoneFromQueue(vs: seq<VehicleRec>, n: nat)
    requires n <= |vs| && forall i :: 0 <= i < |vs| ==> !FromQueue(vs[i])
    ensures FromQueueCount(vs, n) == 0
  {
    if n > 0 {
      NoneFromQueue(vs, n - 1);
    }
  }

  lemma AverageParkingTimeBounds(s: SimState)
    requires Tallied(s) && s.stats.totalParkingCount == s.stats.totalDeparted
    ensures StatsSnapshot(s).totalDeparted > 0 ==>
              s.config.minParkingTime as real <= StatsSnapshot(s).avgParkingTime <= s.config.maxParkingTime as real
  {
    if s.stats.totalDeparted > 0 {
      QuotientBounds(s.stats.totalParkingTime, s.stats.totalParkingCount,
                     s.config.minParkingTime, s.config.maxParkingTime);
    }
  }

  lemma AverageWait(s: SimState)
    requires Boundary(s) && Balanced(s) && Stamped(s)
    ensures StatsSnapshot(s).avgWaitTime == if FromQueueCount(s.vehicles, |s.vehicles|) > 0 then 1.0 else 0.0
    ensures s.config.mode == NO_WAIT ==> StatsSnapshot(s).avgWaitTime == 0.0
  {
    if s.config.mode == NO_WAIT {
      NoneFromQueue(s.vehicles, |s.vehicles|);
    }
    var admitted := FromQueueCount(s.vehicles, |s.vehicles|);
    if admitted > 0 {
      SelfRatio(admitted);
    }
  }

  lemma CountersAddUp(s: SimState)
    requires Boundary(s) && Balanced(s) && Tallied(s)
    ensures var r := StatsSnapshot(s);
            && r.totalArrivals == r.totalParked + r.totalLeftNoSpace + r.currentWaiting
            && r.totalParked == r.totalDeparted + r.currentParked
            && (s.config.mode == WITH_WAIT ==> r.totalLeftNoSpace == 0)
            && (s.config.mode == NO_WAIT ==> r.currentWaiting == 0)
            && s.stats.totalParkingCount == s.stats.totalDeparted
            && (r.totalDeparted == 0 ==> r.avgParkingTime == 0.0)
  {
  }

  lemma ParkedFit(s: SimState)
    requires SpotsMatch(s)
    ensures s.lot.occupied <= |s.lot.spots|
  {
  }

  lemma OccupancyRate(s: SimState)
    requires Boundary(s) && Balanced(s)
    ensures var r := StatsSnapshot(s);
            && r.occupancyRate * s.config.parkingSpots as real == 100.0 * r.currentParked as real
            && 0.0 <= r.occupancyRate <= 100.0
  {
    hide Ratio, Dated, SpotsMatch;
    assert s.stats.currentParked == s.lot.occupied <= |s.lot.spots| by { ParkedFit(s); }
    Percentage(s.lot.occupied, |s.lot.spots|);
  }

  lemma ReportIsConsistent(s: SimState)
    requires Boundary(s) && Balanced(s) && Stamped(s) && Tallied(s)
    ensures ConsistentReport(StatsSnapshot(s), s.config)
  {
    hide StatsSnapshot, Ratio, Boundary, Balanced, Stamped, Tallied, FromQueueCount;
    CountersAddUp(s);
    AverageParkingTimeBounds(s);
    AverageWait(s);
    OccupancyRate(s);
  }

  /** Both snapshots taken at any boundary of any run are consistent. */
  lemma SnapshotsAreConsistent(config: SimulationConfig, draw: Draw, draws: seq<Draws>)
    requires ValidateSimulationConfig(config) && |draws| <= config.durationSec
    ensures ConsistentState(StateSnapshot(After(Initial(config, draw), draws)), config)
    ensures ConsistentReport(StatsSnapshot(After(Initial(config, draw), draws)), config)
  {
    hide Balanced, Stamped, Tallied, After, StatsSnapshot, ConsistentReport;
    InitialBoundary(config, draw);
    RunKeeps(Initial(config, draw), draws);
    RunBalances(config, draw, draws);
    RunTallies(config, draw, draws);
    StateIsConsistent(After(Initial(config, draw), draws));
    ReportIsConsistent(After(Initial(config, draw), draws));
  }

  /** At every boundary of every run the reported average wait is 1 if anybody has been admitted
      from the queue and 0 otherwise, however long they waited. */
  lemma AverageWaitIsOne(config: SimulationConfig, draw: Draw, draws: seq<Draws>)
    requires ValidateSimulationConfig(config) && |draws| <= config.durationSec
    ensures var s := After(Initial(config, draw), draws);
            StatsSnapshot(s).avgWaitTime == if FromQueueCount(s.vehicles, |s.vehicles|) > 0 then 1.0 else 0.0
  {
    hide Balanced, Stamped, After, StatsSnapshot;
    InitialBoundary(config, draw);
    RunKeeps(Initial(config, draw), draws);
    RunBalances(config, draw, draws);
    AverageWait(After(Initial(config, draw), draws));
  }
}
