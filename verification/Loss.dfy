/** The no-wait mode as a loss system. */
module Loss {
  import opened Words
  import opened Configuration
  import opened Simulations
  import opened Invariants
  import opened Evolution
  import opened Timing
  import opened Schedule

  /** Vehicle i was turned away exactly when every spot was held, at its arrival, by an earlier
      vehicle departing at that tick or later; otherwise it parked at once. */
  ghost predicate LossRule(s: SimState, i: nat)
    requires i < |s.vehicles|
  {
    var v := s.vehicles[i];
    && !v.state.Waiting?
    && (v.Refused() <==> Busy(s.vehicles, i, v.arrivalTime - 1) >= |s.lot.spots|)
    && (v.Served() ==> v.ParkTick() == v.arrivalTime)
  }

  ghost predicate LossSystem(s: SimState) {
    s.lot.waiting == [] && forall i :: 0 <= i < |s.vehicles| ==> LossRule(s, i)
  }

  /** At a boundary the occupied spots are those held beyond the previous tick. */
  lemma OccupiedIsBusy(s: SimState)
    requires Timed(s) && s.lot.waiting == []
    ensures Busy(s.vehicles, |s.vehicles|, s.elapsed - 1) == s.lot.occupied
  {
    BusyIsParked(s.vehicles, |s.vehicles|, s.elapsed - 1);
  }

  /** The outcome of an arrival in the no-wait mode depends only on whether the lot is full
      before this tick's departures. */
  lemma ArrivalOutcome(s: SimState, d: Draws)
    requires Boundary(s) && s.elapsed < s.config.durationSec && s.config.mode == NO_WAIT
    ensures WellFormed(s) && |s.vehicles| <= |Arrive(s, d).vehicles| <= |s.vehicles| + 1
    ensures |Arrive(s, d).vehicles| > |s.vehicles| ==>
              var w := Arrive(s, d).vehicles[|s.vehicles|];
              if s.lot.occupied == |s.lot.spots| then w.Refused() else w.state.Parked?
  {
    BoundaryWellFormed(s);
    FreeSpotMeansEmptyQueue(s);
  }

  lemma NewcomerOutcome(s: SimState, d: Draws)
    requires Boundary(s) && s.elapsed < s.config.durationSec && s.config.mode == NO_WAIT && WellFormed(s)
    requires Timed(Tick(s, d)) && |Tick(s, d).vehicles| > |s.vehicles|
    ensures var w := Tick(s, d).vehicles[|s.vehicles|];
            !w.state.Waiting? && (w.Refused() <==> s.lot.occupied == |s.lot.spots|)
  {
    ArrivalOutcome(s, d);
    ArriveKeeps(s, d);
    ArriveAdds(s, d);
    var m, n := Arrive(s, d), |s.vehicles|;
    SettleEvolves(m);
    TickKeeps(s, d);
    hide Arrive, Settle, Shape, SpotsMatch, Settled, Fifo, Dated, Timely, StaysFit;
    assert Arrived(m.vehicles[n], s.elapsed, s.config.mode);
    assert Evolves(m.vehicles[n], Tick(s, d).vehicles[n], s.elapsed);
    PositiveDuration(Tick(s, d), n);
  }

  lemma PositiveDuration(s: SimState, i: nat)
    requires Timed(s) && i < |s.vehicles|
    ensures s.vehicles[i].parkingDuration > 0 && s.config.durationSec + s.vehicles[i].parkingDuration <= TWO32
    ensures s.elapsed <= s.config.durationSec
  {
  }

  lemma NewcomerParks(s: SimState, d: Draws)
    requires Boundary(s) && s.elapsed < s.config.durationSec && WellFormed(s)
    requires Timed(Tick(s, d)) && |Tick(s, d).vehicles| > |s.vehicles|
    ensures var w := Tick(s, d).vehicles[|s.vehicles|];
            w.arrivalTime == s.elapsed && (w.Served() ==> w.ParkTick() == s.elapsed)
  {
    TickSucceeds(s, d);
    TickKeeps(s, d);
    var n, r := |s.vehicles|, Tick(s, d);
    PositiveDuration(r, n);
    hide Tick, Shape, Fifo, SpotsMatch, Dated, Timely;
    assert Newcomer(r.vehicles[n], s.elapsed, s.config.mode);
  }

  lemma LossRuleFrom(r: SimState, n: nat, occupied: int)
    requires n < |r.vehicles| && !r.vehicles[n].state.Waiting?
    requires r.vehicles[n].Refused() <==> occupied == |r.lot.spots|
    requires Busy(r.vehicles, n, r.vehicles[n].arrivalTime - 1) == occupied <= |r.lot.spots|
    requires r.vehicles[n].Served() ==> r.vehicles[n].ParkTick() == r.vehicles[n].arrivalTime
    ensures LossRule(r, n)
  {
  }

  lemma SameSpots(s: SimState, d: Draws)
    requires Boundary(s) && s.elapsed < s.config.durationSec && s.config.mode == NO_WAIT
    ensures WellFormed(s) && |Tick(s, d).lot.spots| == |s.lot.spots| >= s.lot.occupied && s.lot.waiting == []
  {
    TickKeeps(s, d);
    hide Tick, Dated;
  }

  lemma NewFollowsLossRule(s: SimState, d: Draws)
    requires Timed(s) && s.elapsed < s.config.durationSec && s.config.mode == NO_WAIT && WellFormed(s)
    requires Timed(Tick(s, d)) && |Tick(s, d).vehicles| > |s.vehicles|
    ensures LossRule(Tick(s, d), |s.vehicles|)
  {
    hide Boundary, StaysFit, Timely, Tick, Succeeds, Busy, LossRule;
    NewcomerOutcome(s, d);
    NewcomerParks(s, d);
    SameSpots(s, d);
    TickSucceeds(s, d);
    PastIsFixed(s, Tick(s, d), |s.vehicles|, s.elapsed - 1);
    OccupiedIsBusy(s);
    LossRuleFrom(Tick(s, d), |s.vehicles|, s.lot.occupied);
  }

  lemma OldFollowsLossRule(s: SimState, r: SimState, i: nat)
    requires Timed(s) && Timed(r) && Succeeds(s, r) && |r.lot.spots| == |s.lot.spots|
    requires i < |s.vehicles| && LossRule(s, i)
    ensures LossRule(r, i)
  {
    hide SpotsMatch, Fifo, Settled;
    assert Evolves(s.vehicles[i], r.vehicles[i], s.elapsed);
    PastIsFixed(s, r, i, s.vehicles[i].arrivalTime - 1);
  }

  lemma TickLoses(s: SimState, d: Draws)
    requires Timed(s) && s.elapsed < s.config.durationSec && s.config.mode == NO_WAIT && LossSystem(s)
    requires WellFormed(s) && StaysFit(Tick(s, d))
    ensures LossSystem(Tick(s, d))
  {
    hide Boundary, StaysFit, Timely, Tick, LossRule;
    TickTimed(s, d);
    LossKeepsNobodyWaiting(s, d);
    var r := Tick(s, d);
    forall i | 0 <= i < |r.vehicles|
      ensures LossRule(r, i)
    {
      if i < |s.vehicles| {
        OldFollowsLossRule(s, r, i);
      } else {
        NewFollowsLossRule(s, d);
      }
    }
  }

  lemma LossKeepsNobodyWaiting(s: SimState, d: Draws)
    requires Boundary(s) && s.elapsed < s.config.durationSec && s.config.mode == NO_WAIT
    ensures WellFormed(s) && Tick(s, d).lot.waiting == [] && |Tick(s, d).vehicles| <= |s.vehicles| + 1
    ensures Succeeds(s, Tick(s, d)) && |Tick(s, d).lot.spots| == |s.lot.spots|
  {
    TickKeeps(s, d);
    TickSucceeds(s, d);
    SameSpots(s, d);
    hide Tick, Dated, SpotsMatch, Settled;
  }

  /** Every run in the no-wait mode whose departure times fit is a loss system throughout. */
  lemma {:induction false} RunLoses(config: SimulationConfig, draw: Draw, draws: seq<Draws>)
    requires ValidateSimulationConfig(config) && |draws| <= config.durationSec
    requires config.mode == NO_WAIT && StaysFit(After(Initial(config, draw), draws))
    ensures LossSystem(After(Initial(config, draw), draws))
    decreases |draws|
  {
    if draws != [] {
      var init, early := Initial(config, draw), draws[..|draws| - 1];
      InitialBoundary(config, draw);
      InitialTimed(config, draw);
      FitsBefore(init, draws);
      RunLoses(config, draw, early);
      RunKeeps(init, early);
      RunTimed(init, early);
      hide Boundary, Timely, StaysFit, LossSystem, Tick;
      TickLoses(After(init, early), draws[|draws| - 1]);
    }
  }
}
