/** The tick loop computes a schedule that can be described without ticks, spots or queues:
    a first-come-first-served system with as many servers as the lot has spots. */
module Schedule {
  import opened Configuration
  import opened Vehicles
  import opened Simulations
  import opened Invariants
  import opened Evolution
  import opened Timing

  /** The vehicle has, or will have, a spot at some time after t. */
  predicate Holds(v: VehicleRec, t: int) {
    v.state.Waiting? || v.departureTime > t
  }

  /** The number of vehicles before j that have not finished with their spot by t. */
  function Busy(vs: seq<VehicleRec>, j: nat, t: int): (r: nat)
    requires j <= |vs|
    ensures r <= j
  {
    if j == 0 then 0 else Busy(vs, j - 1, t) + One(Holds(vs[j - 1], t))
  }

  lemma {:induction false} BusySame(vs: seq<VehicleRec>, ws: seq<VehicleRec>, j: nat, t: int)
    requires j <= |vs| && j <= |ws| && forall i :: 0 <= i < j ==> Holds(vs[i], t) == Holds(ws[i], t)
    ensures Busy(vs, j, t) == Busy(ws, j, t)
  {
    if j > 0 {
      BusySame(vs, ws, j - 1, t);
    }
  }

  lemma {:induction false} BusyIsParked(vs: seq<VehicleRec>, j: nat, t: int)
    requires j <= |vs| && forall i :: 0 <= i < j ==> (Holds(vs[i], t) <==> vs[i].state.Parked?)
    ensures Busy(vs, j, t) == ParkedCount(vs, j)
  {
    if j > 0 {
      BusyIsParked(vs, j - 1, t);
    }
  }

  lemma {:induction false} BusyGrows(vs: seq<VehicleRec>, i: nat, j: nat, t: int)
    requires i <= j <= |vs|
    ensures Busy(vs, i, t) <= Busy(vs, j, t) <= Busy(vs, i, t) + (j - i)
  {
    if i < j {
      BusyGrows(vs, i, j - 1, t);
    }
  }

  lemma {:induction false} ParkedCountGrows(vs: seq<VehicleRec>, i: nat, j: nat)
    requires i <= j <= |vs|
    ensures ParkedCount(vs, i) <= ParkedCount(vs, j) <= ParkedCount(vs, i) + (j - i)
  {
    if i < j {
      ParkedCountGrows(vs, i, j - 1);
    }
  }

  lemma {:induction false} NoneParkedAfter(vs: seq<VehicleRec>, i: nat, j: nat)
    requires i <= j <= |vs| && forall k :: i <= k < j ==> !vs[k].state.Parked?
    ensures ParkedCount(vs, i) == ParkedCount(vs, j)
  {
    if i < j {
      NoneParkedAfter(vs, i, j - 1);
    }
  }

  // ---------------------------------------------------------------- the tick just done

  /** At a boundary, whoever still waits could not have parked in the tick just done: all
      spots are held, beyond that tick, by earlier vehicles. */
  lemma WaitingFindsAllHeld(s: SimState, i: nat)
    requires Timed(s) && i < |s.vehicles| && s.vehicles[i].state.Waiting?
    ensures Busy(s.vehicles, i, s.elapsed - 1) >= |s.lot.spots|
  {
    var head := Head(s);
    NoneParkedAfter(s.vehicles, head, |s.vehicles|);
    BusyIsParked(s.vehicles, head, s.elapsed - 1);
    BusyGrows(s.vehicles, head, i, s.elapsed - 1);
  }

  /** Whoever parked in that tick found a spot not held by an earlier vehicle. */
  lemma ParkedFindsOneFree(s: SimState, i: nat)
    requires Timed(s) && i < |s.vehicles| && s.vehicles[i].state.Parked?
    ensures Busy(s.vehicles, i, s.elapsed - 1) < |s.lot.spots|
  {
    BusyIsParked(s.vehicles, i, s.elapsed - 1);
    ParkedCountGrows(s.vehicles, i + 1, |s.vehicles|);
  }

  /** The past does not change: at any time up to the tick being done, a vehicle holds a spot
      before the tick exactly if it does after it. */
  lemma PastIsFixed(s: SimState, r: SimState, j: nat, t: int)
    requires Timed(s) && Timed(r) && Succeeds(s, r) && j <= |s.vehicles| && t <= s.elapsed
    ensures Busy(s.vehicles, j, t) == Busy(r.vehicles, j, t)
  {
    hide SpotsMatch, Fifo, Settled;
    forall i | 0 <= i < j
      ensures Holds(s.vehicles[i], t) == Holds(r.vehicles[i], t)
    {
      assert Evolves(s.vehicles[i], r.vehicles[i], s.elapsed);
    }
    BusySame(s.vehicles, r.vehicles, j, t);
  }

  // ---------------------------------------------------------------- the schedule

  /** Vehicle i parked at the first tick, from its arrival on, at which fewer than all spots
      are held by earlier vehicles beyond that tick; or it still waits and there has been no
      such tick yet. */
  ghost predicate OnSchedule(s: SimState, i: nat)
    requires i < |s.vehicles|
  {
    var v := s.vehicles[i];
    && (v.Served() ==> Busy(s.vehicles, i, v.ParkTick()) < |s.lot.spots|)
    && (v.Served() ==> forall t :: v.arrivalTime <= t < v.ParkTick() ==> Busy(s.vehicles, i, t) >= |s.lot.spots|)
    && (v.state.Waiting? ==> forall t :: v.arrivalTime <= t < s.elapsed ==> Busy(s.vehicles, i, t) >= |s.lot.spots|)
  }

  ghost predicate Scheduled(s: SimState) {
    && (forall i :: 0 <= i < |s.vehicles| ==> OnSchedule(s, i))
    && (forall i, j :: 0 <= i < j < |s.vehicles| ==> s.vehicles[i].arrivalTime < s.vehicles[j].arrivalTime)
  }

  lemma PastOfOne(s: SimState, r: SimState, i: nat)
    requires Timed(s) && Timed(r) && Succeeds(s, r) && i <= |s.vehicles|
    ensures forall t :: t <= s.elapsed ==> Busy(s.vehicles, i, t) == Busy(r.vehicles, i, t)
  {
    forall t | t <= s.elapsed
      ensures Busy(s.vehicles, i, t) == Busy(r.vehicles, i, t)
    {
      PastIsFixed(s, r, i, t);
    }
  }

  lemma ParkedBefore(s: SimState, i: nat)
    requires Timed(s) && i < |s.vehicles| && s.vehicles[i].Served()
    ensures s.vehicles[i].ParkTick() < s.elapsed
  {
  }

  lemma ParksNow(s: SimState, r: SimState, i: nat)
    requires Timed(s) && Timed(r) && Succeeds(s, r) && r.elapsed == s.elapsed + 1 && i < |s.vehicles|
    requires s.vehicles[i].state.Waiting? && !r.vehicles[i].state.Waiting?
    ensures r.vehicles[i].Served() && r.vehicles[i].ParkTick() == s.elapsed
  {
    hide SpotsMatch, Fifo, Settled;
    assert Evolves(s.vehicles[i], r.vehicles[i], s.elapsed);
  }

  lemma OldStaysOnSchedule(s: SimState, r: SimState, i: nat)
    requires Timed(s) && Timed(r) && Succeeds(s, r) && r.elapsed == s.elapsed + 1
    requires |r.lot.spots| == |s.lot.spots| && i < |s.vehicles| && OnSchedule(s, i)
    ensures OnSchedule(r, i)
  {
    hide Timed, Busy;
    var v, w := s.vehicles[i], r.vehicles[i];
    assert Evolves(v, w, s.elapsed);
    PastOfOne(s, r, i);
    if w.state.Waiting? {
      WaitingFindsAllHeld(r, i);
    } else if v.state.Waiting? {
      ParksNow(s, r, i);
      SameTickParked(r, i);
    } else if v.Served() {
      ParkedBefore(s, i);
    }
  }

  /** A vehicle whose park tick is the tick just done is still parked: parking times are
      positive. */
  lemma SameTickParked(s: SimState, i: nat)
    requires Timed(s) && i < |s.vehicles| && s.vehicles[i].Served()
    requires s.vehicles[i].ParkTick() == s.elapsed - 1
    ensures Busy(s.vehicles, i, s.vehicles[i].ParkTick()) < |s.lot.spots|
  {
    assert s.vehicles[i].state.Parked?;
    ParkedFindsOneFree(s, i);
  }

  lemma NewIsOnSchedule(s: SimState, r: SimState, i: nat)
    requires Timed(s) && Timed(r) && Succeeds(s, r) && r.elapsed == s.elapsed + 1
    requires |s.vehicles| <= i < |r.vehicles|
    ensures OnSchedule(r, i)
  {
    var w := r.vehicles[i];
    assert Newcomer(w, s.elapsed, s.config.mode);
    if w.state.Waiting? {
      WaitingFindsAllHeld(r, i);
    } else if w.Served() {
      SameTickParked(r, i);
    }
  }

  lemma TickSchedules(s: SimState, d: Draws)
    requires Timed(s) && s.elapsed < s.config.durationSec && Scheduled(s)
    requires WellFormed(s) && StaysFit(Tick(s, d))
    ensures Scheduled(Tick(s, d))
  {
    TickKeeps(s, d);
    TickTimed(s, d);
    TickSucceeds(s, d);
    var r := Tick(s, d);
    forall i | 0 <= i < |r.vehicles|
      ensures OnSchedule(r, i)
    {
      if i < |s.vehicles| {
        OldStaysOnSchedule(s, r, i);
      } else {
        NewIsOnSchedule(s, r, i);
      }
    }
    hide OnSchedule;
    ArrivalsStayOrdered(s, r);
  }

  lemma ArrivalsStayOrdered(s: SimState, r: SimState)
    requires Timed(s) && Succeeds(s, r) && Scheduled(s)
    ensures forall i, j :: 0 <= i < j < |r.vehicles| ==> r.vehicles[i].arrivalTime < r.vehicles[j].arrivalTime
  {
    hide SpotsMatch, Fifo, Settled, OnSchedule;
    forall i, j | 0 <= i < j < |r.vehicles|
      ensures r.vehicles[i].arrivalTime < r.vehicles[j].arrivalTime
    {
      assert Evolves(s.vehicles[i], r.vehicles[i], s.elapsed);
      if j < |s.vehicles| {
        assert Evolves(s.vehicles[j], r.vehicles[j], s.elapsed);
      } else {
        assert Newcomer(r.vehicles[j], s.elapsed, s.config.mode);
      }
    }
  }

  /** Every state of every run whose departure times fit is on schedule. */
  lemma {:induction false} RunSchedules(config: SimulationConfig, draw: Draw, draws: seq<Draws>)
    requires ValidateSimulationConfig(config) && |draws| <= config.durationSec
    requires StaysFit(After(Initial(config, draw), draws))
    ensures Timed(After(Initial(config, draw), draws)) && Scheduled(After(Initial(config, draw), draws))
    decreases |draws|
  {
    hide Boundary, StaysFit, Timely, Tick;
    var init := Initial(config, draw);
    InitialBoundary(config, draw);
    InitialTimed(config, draw);
    RunTimed(init, draws);
    if draws != [] {
      var early := draws[..|draws| - 1];
      FitsBefore(init, draws);
      RunSchedules(config, draw, early);
      RunKeeps(init, early);
      TickSchedules(After(init, early), draws[|draws| - 1]);
    }
  }
}
