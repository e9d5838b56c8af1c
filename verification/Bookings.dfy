/** What the counters say about the vehicle records, in runs in which no departure time wraps
    around: only there can a record of a refused vehicle be told from that of a departed one. */
module Bookings {
  import opened Words
  import opened Configuration
  import opened Vehicles
  import opened Parkings
  import opened Statistics
  import opened Simulations
  import opened Invariants
  import opened Timing
  import opened Ledger

  /** It had a spot and has left it. */
  predicate Departed(v: VehicleRec) {
    v.state.Left? && v.departureTime > 0
  }

  function DepartedCount(vs: seq<VehicleRec>, n: nat): (r: nat)
    requires n <= |vs|
    ensures r <= n
  {
    if n == 0 then 0 else DepartedCount(vs, n - 1) + One(Departed(vs[n - 1]))
  }

  /** The parking times of the departed vehicles, added up. */
  function DepartedTime(vs: seq<VehicleRec>, n: nat): (r: nat)
    requires n <= |vs|
    ensures r <= n * TWO32
  {
    if n == 0 then 0
    else DepartedTime(vs, n - 1) + if Departed(vs[n - 1]) then vs[n - 1].parkingDuration else 0
  }

  lemma {:induction false} DepartedUpdate(vs: seq<VehicleRec>, n: nat, i: nat, v: VehicleRec)
    requires i < |vs| && n <= |vs| && !Departed(vs[i])
    ensures DepartedCount(vs[i := v], n) == DepartedCount(vs, n) + One(i < n && Departed(v))
    ensures DepartedTime(vs[i := v], n) == DepartedTime(vs, n) + if i < n && Departed(v) then v.parkingDuration else 0
  {
    if n > 0 {
      DepartedUpdate(vs, n - 1, i, v);
    }
  }

  lemma {:induction false} DepartedPrefix(vs: seq<VehicleRec>, ws: seq<VehicleRec>, n: nat)
    requires n <= |vs| && n <= |ws| && forall i :: 0 <= i < n ==> vs[i] == ws[i]
    ensures DepartedCount(vs, n) == DepartedCount(ws, n) && DepartedTime(vs, n) == DepartedTime(ws, n)
  {
    if n > 0 {
      DepartedPrefix(vs, ws, n - 1);
    }
  }

  /** The two counters behind the average are those of the departed vehicles. */
  ghost predicate Booked(s: SimState) {
    && s.stats.totalParkingCount == DepartedCount(s.vehicles, |s.vehicles|)
    && s.stats.totalParkingTime == DepartedTime(s.vehicles, |s.vehicles|)
  }

  lemma ArriveBooks(s: SimState, d: Draws)
    requires InTick(s) && Booked(s)
    ensures WellFormed(s) && Booked(Arrive(s, d))
  {
    InTickWellFormed(s);
    if ArrivalDue(s) {
      DepartedPrefix(s.vehicles, Arrive(s, d).vehicles, |s.vehicles|);
    }
  }

  lemma DepartOneBooks(s: SimState, i: nat)
    requires TimedTick(s, i) && i < |s.vehicles| && Booked(s)
    ensures WellFormed(s) && Booked(DepartOne(s, i))
  {
    InTickWellFormed(s);
    var v := s.vehicles[i];
    if v.ShouldDepart(s.elapsed) {
      DepartedUpdate(s.vehicles, |s.vehicles|, i, v.Leave());
    }
  }

  lemma {:induction false} DepartFromBooks(s: SimState, i: nat)
    requires TimedTick(s, i) && i <= |s.vehicles| && Booked(s)
    ensures WellFormed(s) && Booked(DepartFrom(s, i))
    decreases |s.vehicles| - i
  {
    hide Shape, SpotsMatch, Fifo, Timely, Dated, StaysFit, DepartOne, Booked;
    InTickWellFormed(s);
    if i < |s.vehicles| {
      DepartOneTimed(s, i);
      DepartOneBooks(s, i);
      DepartFromBooks(DepartOne(s, i), i + 1);
    }
  }

  lemma {:induction false} DrainBooks(s: SimState)
    requires TimedTick(s, |s.vehicles|)
    ensures WellFormed(s)
    ensures DepartedCount(DrainAll(s).vehicles, |s.vehicles|) == DepartedCount(s.vehicles, |s.vehicles|)
    ensures DepartedTime(DrainAll(s).vehicles, |s.vehicles|) == DepartedTime(s.vehicles, |s.vehicles|)
    decreases |s.lot.waiting|
  {
    InTickWellFormed(s);
    if CanDrain(s.lot) {
      DrainStepKeeps(s);
      DrainStepTimed(s);
      var key := s.lot.waiting[0];
      DepartedUpdate(s.vehicles, |s.vehicles|, key, DrainStep(s).vehicles[key]);
      DrainBooks(DrainStep(s));
    }
  }

  lemma TickBooks(s: SimState, d: Draws)
    requires Timed(s) && s.elapsed < s.config.durationSec && Booked(s)
    requires WellFormed(s) && StaysFit(Tick(s, d))
    ensures Booked(Tick(s, d))
  {
    ArrivalsFit(s, d);
    BoundaryInTick(s);
    ArriveTimed(s, d);
    ArriveBooks(s, d);
    var a := Arrive(s, d);
    hide Shape, SpotsMatch, Fifo, Timely, Dated, StaysFit, DepartFrom, Drain, Arrive;
    DepartFromTimed(a, 0);
    DepartFromBooks(a, 0);
    var m := DepartFrom(a, 0);
    DrainBooks(m);
    ParkedTimesBookNothing(m.stats, Drain(m.lot, m.vehicles, m.elapsed).2);
  }

  lemma {:induction false} RunBooks(config: SimulationConfig, draw: Draw, draws: seq<Draws>)
    requires ValidateSimulationConfig(config) && |draws| <= config.durationSec
    requires StaysFit(After(Initial(config, draw), draws))
    ensures Booked(After(Initial(config, draw), draws))
    decreases |draws|
  {
    hide Boundary, StaysFit, Timely, Tick;
    var init := Initial(config, draw);
    InitialBoundary(config, draw);
    if draws != [] {
      var early := draws[..|draws| - 1];
      InitialTimed(config, draw);
      FitsBefore(init, draws);
      RunBooks(config, draw, early);
      RunKeeps(init, early);
      RunTimed(init, early);
      TickBooks(After(init, early), draws[|draws| - 1]);
    }
  }

  function RefusedCount(vs: seq<VehicleRec>, n: nat): (r: nat)
    requires n <= |vs|
    ensures r == 0 <==> forall i :: 0 <= i < n ==> !vs[i].Refused()
  {
    if n == 0 then 0 else RefusedCount(vs, n - 1) + One(vs[n - 1].Refused())
  }

  lemma {:induction false} EveryoneCounted(vs: seq<VehicleRec>, n: nat)
    requires n <= |vs| && forall i :: 0 <= i < n ==> !vs[i].state.Waiting?
    ensures ParkedCount(vs, n) + DepartedCount(vs, n) + RefusedCount(vs, n) == n
  {
    if n > 0 {
      EveryoneCounted(vs, n - 1);
    }
  }

  lemma {:induction false} WaitersUncounted(vs: seq<VehicleRec>, head: nat, n: nat)
    requires head <= n <= |vs| && forall i :: head <= i < n ==> vs[i].state.Waiting?
    ensures ParkedCount(vs, n) == ParkedCount(vs, head)
    ensures DepartedCount(vs, n) == DepartedCount(vs, head)
    ensures RefusedCount(vs, n) == RefusedCount(vs, head)
  {
    if head < n {
      WaitersUncounted(vs, head, n - 1);
    }
  }

  lemma RefusalsAreCounted(s: SimState)
    requires Boundary(s) && Balanced(s) && Booked(s)
    ensures s.stats.totalLeftNoSpace == RefusedCount(s.vehicles, |s.vehicles|)
  {
    EveryoneCounted(s.vehicles, Head(s));
    WaitersUncounted(s.vehicles, Head(s), |s.vehicles|);
  }

  // ---------------------------------------------------------------- over runs

  /** In every run whose departure times fit, the reported refusals are the number of records of
      vehicles turned away. */
  lemma LeftNoSpaceIsRefused(config: SimulationConfig, draw: Draw, draws: seq<Draws>)
    requires ValidateSimulationConfig(config) && |draws| <= config.durationSec
    requires StaysFit(After(Initial(config, draw), draws))
    ensures var s := After(Initial(config, draw), draws);
            StatsSnapshot(s).totalLeftNoSpace == RefusedCount(s.vehicles, |s.vehicles|)
  {
    hide After, Balanced, Booked;
    InitialBoundary(config, draw);
    RunKeeps(Initial(config, draw), draws);
    RunBalances(config, draw, draws);
    RunBooks(config, draw, draws);
    RefusalsAreCounted(After(Initial(config, draw), draws));
  }

  /** And the reported average is that of the parking times of exactly the departed vehicles. */
  lemma AverageParkingTime(config: SimulationConfig, draw: Draw, draws: seq<Draws>)
    requires ValidateSimulationConfig(config) && |draws| <= config.durationSec
    requires StaysFit(After(Initial(config, draw), draws))
    ensures var s := After(Initial(config, draw), draws);
            var n := |s.vehicles|;
            && StatsSnapshot(s).totalDeparted == DepartedCount(s.vehicles, n)
            && StatsSnapshot(s).avgParkingTime == Ratio(DepartedTime(s.vehicles, n), DepartedCount(s.vehicles, n))
  {
    hide After;
    RunBalances(config, draw, draws);
    RunBooks(config, draw, draws);
  }
}
