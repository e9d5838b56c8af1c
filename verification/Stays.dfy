/** What the invariants mean for one vehicle and for one lot, at any point of any run. */
module Stays {
  import opened Words
  import opened Configuration
  import opened Vehicles
  import opened Parkings
  import opened Simulations
  import opened Invariants
  import opened Evolution
  import opened Timing
  import opened Draining

  /** Doing some ticks and then some more is doing them all. */
  lemma {:induction false} AfterSplit(s: SimState, first: seq<Draws>, second: seq<Draws>)
    requires WellFormed(s)
    ensures After(s, first + second) == After(After(s, first), second)
    decreases |second|
  {
    hide Tick;
    if second == [] {
      assert first + second == first;
    } else {
      var early := second[..|second| - 1];
      AfterSplit(s, first, early);
      assert (first + second)[..|first + second| - 1] == first + early;
    }
  }

  lemma Resume(s: SimState, draws: seq<Draws>, n: nat)
    requires WellFormed(s) && n <= |draws|
    ensures After(s, draws) == After(After(s, draws[..n]), draws[n..])
  {
    hide After;
    assert draws == draws[..n] + draws[n..];
    AfterSplit(s, draws[..n], draws[n..]);
  }

  /** Whether vehicle i exists and is parked. */
  predicate InLot(s: SimState, i: nat) {
    i < |s.vehicles| && s.vehicles[i].state.Parked?
  }

  /** The boundary after n ticks of a run. */
  function At(config: SimulationConfig, draw: Draw, draws: seq<Draws>, n: nat): (s: SimState)
    requires ValidateSimulationConfig(config) && n <= |draws|
    ensures WellFormed(s)
  {
    After(Initial(config, draw), draws[..n])
  }

  lemma BoundaryAt(config: SimulationConfig, draw: Draw, draws: seq<Draws>, n: nat)
    requires ValidateSimulationConfig(config) && n <= |draws| <= config.durationSec
    ensures Boundary(At(config, draw, draws, n)) && At(config, draw, draws, n).elapsed == n
    ensures At(config, draw, draws, n).config == config
  {
    InitialBoundary(config, draw);
    RunKeeps(Initial(config, draw), draws[..n]);
  }

  lemma NextAt(config: SimulationConfig, draw: Draw, draws: seq<Draws>, n: nat)
    requires ValidateSimulationConfig(config) && n < |draws|
    ensures At(config, draw, draws, n + 1) == Tick(At(config, draw, draws, n), draws[n])
  {
    assert draws[..n + 1][..n] == draws[..n];
  }

  lemma PersistsAt(config: SimulationConfig, draw: Draw, draws: seq<Draws>, n: nat, m: nat)
    requires ValidateSimulationConfig(config) && n <= m <= |draws| <= config.durationSec
    ensures AllPersist(At(config, draw, draws, n), At(config, draw, draws, m))
    ensures At(config, draw, draws, n).elapsed == n && At(config, draw, draws, m).elapsed == m
  {
    hide Boundary, AllPersist, Tick;
    BoundaryAt(config, draw, draws, n);
    BoundaryAt(config, draw, draws, m);
    hide After;
    assert draws[..m][..n] == draws[..n];
    Resume(Initial(config, draw), draws[..m], n);
    RunPersists(At(config, draw, draws, n), draws[..m][n..]);
  }

  // ---------------------------------------------------------------- how long a stay lasts

  /** Vehicle i arrives in the tick and finds a spot. */
  predicate ParksOnArrival(s: SimState, d: Draws, i: nat)
    requires WellFormed(s)
  {
    i == |s.vehicles| < |Arrive(s, d).vehicles| && Arrive(s, d).vehicles[i].state.Parked?
  }

  /** Vehicle i is waiting and is admitted to a spot in the tick. */
  predicate ParksFromQueue(s: SimState, d: Draws, i: nat)
    requires WellFormed(s)
  {
    && i < |Arrive(s, d).vehicles| && Arrive(s, d).vehicles[i].state.Waiting?
    && InLot(Tick(s, d), i)
  }

  predicate Parks(s: SimState, d: Draws, i: nat)
    requires WellFormed(s)
  {
    ParksOnArrival(s, d, i) || ParksFromQueue(s, d, i)
  }

  /** How many boundaries a vehicle that parks at a tick is in the lot. A departure time that has
      wrapped around is in the past: an arrival leaves in the same tick, as the departures are
      examined after it has parked; a vehicle from the queue, which parks after that, leaves in
      the next one. */
  function Stay(now: nat, duration: nat, onArrival: bool): nat {
    if now + duration < TWO32 then duration else if onArrival then 0 else 1
  }

  /** The record at the end of the tick in which a vehicle parks. */
  lemma ParkedNow(s: SimState, d: Draws, i: nat)
    requires Boundary(s) && s.elapsed < s.config.durationSec && WellFormed(s) && Parks(s, d, i)
    ensures i < |Tick(s, d).vehicles|
    ensures var w := Tick(s, d).vehicles[i];
            && w.parkingDuration > 0 && !w.state.Waiting?
            && w.departureTime == DepartureAt(s.elapsed, w.parkingDuration)
            && (w.state.Parked? <==> !ParksOnArrival(s, d, i) || s.elapsed < w.departureTime)
  {
    ArriveKeeps(s, d);
    ArriveAdds(s, d);
    SettleEvolves(Arrive(s, d));
    TickKeeps(s, d);
    PositiveDuration(Tick(s, d), i);
    hide Shape, SpotsMatch, Fifo, Dated, Settled, Settle, Arrive, DepartureAt;
    assert Evolves(Arrive(s, d).vehicles[i], Tick(s, d).vehicles[i], s.elapsed);
    if i >= |s.vehicles| {
      assert Arrived(Arrive(s, d).vehicles[i], s.elapsed, s.config.mode);
    }
  }

  lemma PositiveDuration(s: SimState, i: nat)
    requires Boundary(s)
    ensures i < |s.vehicles| ==> s.vehicles[i].parkingDuration > 0
  {
  }

  /** From the end of that tick on. */
  lemma StayFrom(v: VehicleRec, w: VehicleRec, n: u32, m: int, onArrival: bool)
    requires Persists(v, w, n + 1, m) && n < m && v.parkingDuration > 0
    requires !v.state.Waiting? && v.departureTime == DepartureAt(n, v.parkingDuration)
    requires v.state.Parked? <==> !onArrival || n < v.departureTime
    ensures w.state.Parked? <==> m <= n + Stay(n, w.parkingDuration, onArrival)
  {
  }

  /** For every validated configuration: a vehicle that parks at tick n is in the lot at exactly
      the boundaries of its stay. */
  lemma StayInRun(config: SimulationConfig, draw: Draw, draws: seq<Draws>, n: nat, i: nat, m: nat)
    requires ValidateSimulationConfig(config) && n < m <= |draws| <= config.durationSec
    ensures Parks(At(config, draw, draws, n), draws[n], i) ==>
              && i < |At(config, draw, draws, m).vehicles|
              && var duration := At(config, draw, draws, m).vehicles[i].parkingDuration;
                 InLot(At(config, draw, draws, m), i)
                 <==> m <= n + Stay(n, duration, ParksOnArrival(At(config, draw, draws, n), draws[n], i))
  {
    hide At, Boundary, Persists, Stay, Parks, ParksOnArrival, Tick;
    var s, r, t := At(config, draw, draws, n), At(config, draw, draws, n + 1), At(config, draw, draws, m);
    BoundaryAt(config, draw, draws, n);
    if Parks(s, draws[n], i) {
      NextAt(config, draw, draws, n);
      ParkedNow(s, draws[n], i);
      PersistsAt(config, draw, draws, n + 1, m);
      SameDuration(r.vehicles[i], t.vehicles[i], n + 1, m);
      StayFrom(r.vehicles[i], t.vehicles[i], n, m, ParksOnArrival(s, draws[n], i));
    }
  }

  lemma SameDuration(v: VehicleRec, w: VehicleRec, now: int, later: int)
    requires Persists(v, w, now, later)
    ensures w.parkingDuration == v.parkingDuration
  {
  }

  /** The stay is as long as the parking time says. */
  ghost predicate StaysItsTime(config: SimulationConfig, draw: Draw, draws: seq<Draws>, n: nat, i: nat, duration: nat)
    requires ValidateSimulationConfig(config)
  {
    forall m :: n < m <= |draws| ==> (InLot(At(config, draw, draws, m), i) <==> m <= n + duration)
  }

  /** Exactly when: the sum computed on parking fits in 32 bits. */
  lemma StayIsExactIffNoWrap(config: SimulationConfig, draw: Draw, draws: seq<Draws>, n: nat, i: nat)
    requires ValidateSimulationConfig(config) && n + 2 <= |draws| <= config.durationSec
    ensures Parks(At(config, draw, draws, n), draws[n], i) ==>
              && i < |At(config, draw, draws, n + 1).vehicles|
              && var duration := At(config, draw, draws, n + 1).vehicles[i].parkingDuration;
                 StaysItsTime(config, draw, draws, n, i, duration) <==> n + duration < TWO32
  {
    hide At, Parks, ParksOnArrival, InLot;
    StayInRun(config, draw, draws, n, i, n + 1);
    if Parks(At(config, draw, draws, n), draws[n], i) {
      var duration := At(config, draw, draws, n + 1).vehicles[i].parkingDuration;
      forall m | n < m <= |draws|
        ensures InLot(At(config, draw, draws, m), i)
                <==> m <= n + Stay(n, duration, ParksOnArrival(At(config, draw, draws, n), draws[n], i))
      {
        StayInRun(config, draw, draws, n, i, m);
        DurationsStay(config, draw, draws, n + 1, m, i);
      }
      if n + duration >= TWO32 {
        var m := n + 2;
        assert !InLot(At(config, draw, draws, m), i) && m <= n + duration;
      }
    }
  }

  lemma DurationsStay(config: SimulationConfig, draw: Draw, draws: seq<Draws>, n: nat, m: nat, i: nat)
    requires ValidateSimulationConfig(config) && n <= m <= |draws| <= config.durationSec
    requires i < |At(config, draw, draws, n).vehicles|
    ensures i < |At(config, draw, draws, m).vehicles|
    ensures At(config, draw, draws, m).vehicles[i].parkingDuration == At(config, draw, draws, n).vehicles[i].parkingDuration
  {
    hide At, Persists;
    PersistsAt(config, draw, draws, n, m);
    SameDuration(At(config, draw, draws, n).vehicles[i], At(config, draw, draws, m).vehicles[i], n, m);
  }

  /** Every vehicle found in the lot has parked at some earlier tick. */
  lemma {:induction false} EveryStayBegins(config: SimulationConfig, draw: Draw, draws: seq<Draws>, m: nat, i: nat)
      returns (n: nat)
    requires ValidateSimulationConfig(config) && m <= |draws| <= config.durationSec
    requires InLot(At(config, draw, draws, m), i)
    ensures n < m && Parks(At(config, draw, draws, n), draws[n], i)
  {
    hide At, Boundary, Tick, Parks, InLot;
    NobodyAtFirst(config, draw, draws, i);
    if m > 0 {
      BoundaryAt(config, draw, draws, m - 1);
      NextAt(config, draw, draws, m - 1);
      var s := At(config, draw, draws, m - 1);
      if InLot(s, i) {
        n := EveryStayBegins(config, draw, draws, m - 1, i);
      } else {
        n := m - 1;
        ParksIn(s, draws[n], i);
      }
    }
  }

  lemma NobodyAtFirst(config: SimulationConfig, draw: Draw, draws: seq<Draws>, i: nat)
    requires ValidateSimulationConfig(config)
    ensures !InLot(At(config, draw, draws, 0), i)
  {
  }

  lemma ParksIn(s: SimState, d: Draws, i: nat)
    requires Boundary(s) && s.elapsed < s.config.durationSec && WellFormed(s)
    requires !InLot(s, i) && InLot(Tick(s, d), i)
    ensures Parks(s, d, i)
  {
    ArriveKeeps(s, d);
    ArriveAdds(s, d);
    SettleEvolves(Arrive(s, d));
    hide SpotsMatch, Fifo, Dated, Settled, Settle, Arrive;
    assert Evolves(Arrive(s, d).vehicles[i], Tick(s, d).vehicles[i], s.elapsed);
  }

  // ---------------------------------------------------------------- what the records say

  /** What one boundary and a later one say about a vehicle that has been served by then. */
  lemma ParkedBetween(s: SimState, r: SimState, i: nat)
    requires Timed(s) && Timed(r) && AllPersist(s, r) && s.elapsed <= r.elapsed
    requires i < |r.vehicles| && r.vehicles[i].Served()
    ensures InLot(s, i) <==> r.vehicles[i].ParkTick() < s.elapsed <= r.vehicles[i].departureTime
  {
    hide SpotsMatch, Fifo, Settled;
    if i < |s.vehicles| {
      assert Persists(s.vehicles[i], r.vehicles[i], s.elapsed, r.elapsed);
    }
  }

  /** In a run whose departure times fit, the park tick can be read off a record even after the
      vehicle has left: it was in the lot at exactly the boundaries after that tick up to its
      departure time. */
  lemma RecordedStay(config: SimulationConfig, draw: Draw, draws: seq<Draws>, n: nat, i: nat)
    requires ValidateSimulationConfig(config) && n <= |draws| <= config.durationSec
    requires StaysFit(After(Initial(config, draw), draws)) && i < |After(Initial(config, draw), draws).vehicles|
    requires After(Initial(config, draw), draws).vehicles[i].Served()
    ensures var v := After(Initial(config, draw), draws).vehicles[i];
            InLot(At(config, draw, draws, n), i) <==> v.ParkTick() < n <= v.ParkTick() + v.parkingDuration
  {
    var init, s := Initial(config, draw), At(config, draw, draws, n);
    BoundaryAt(config, draw, draws, n);
    InitialTimed(config, draw);
    RunTimed(init, draws);
    Resume(init, draws, n);
    RunPersists(s, draws[n..]);
    RunKeeps(s, draws[n..]);
    PrefixFits(s, After(init, draws));
    RunTimed(init, draws[..n]);
    ParkedBetween(s, After(init, draws), i);
  }

  lemma PrefixFits(s: SimState, r: SimState)
    requires AllPersist(s, r) && r.config == s.config && StaysFit(r)
    ensures StaysFit(s)
  {
    forall i | 0 <= i < |s.vehicles|
      ensures s.config.durationSec + s.vehicles[i].parkingDuration <= TWO32
    {
      SameDuration(s.vehicles[i], r.vehicles[i], s.elapsed, r.elapsed);
    }
  }

  // ---------------------------------------------------------------- one place for everyone

  predicate AtSpot(s: SimState, i: nat, p: nat) {
    p < |s.lot.spots| && s.lot.spots[p] == Some(i)
  }

  predicate AtQueue(s: SimState, i: nat, k: nat) {
    k < |s.lot.waiting| && s.lot.waiting[k] == i
  }

  /** Every vehicle is in exactly one place: one spot (the one it names), one queue position, or
      gone. */
  lemma OnePlaceEach(s: SimState, i: nat)
    requires Boundary(s) && i < |s.vehicles|
    ensures match s.vehicles[i].state
            case Parked => s.vehicles[i].spot >= 0 && AtSpot(s, i, s.vehicles[i].spot)
            case Waiting => i >= Head(s) && AtQueue(s, i, i - Head(s))
            case Left => true
    ensures forall p :: AtSpot(s, i, p) ==> s.vehicles[i].state.Parked? && p == s.vehicles[i].spot
    ensures forall k :: AtQueue(s, i, k) ==> s.vehicles[i].state.Waiting? && k == i - Head(s)
  {
  }

  /** The queue is the vehicles from some point on, in order of arrival; everyone before has
      parked, left or been turned away; and no spot is free while somebody waits. */
  ghost predicate InOrder(s: SimState) {
    && |s.lot.waiting| <= |s.vehicles|
    && s.lot.waiting == seq(|s.lot.waiting|, k => |s.vehicles| - |s.lot.waiting| + k)
    && (forall i, j :: 0 <= i < j < |s.vehicles| && s.vehicles[i].state.Waiting? ==> s.vehicles[j].state.Waiting?)
    && (s.lot.waiting != [] ==> forall p :: 0 <= p < |s.lot.spots| ==> s.lot.spots[p].Some?)
  }

  lemma BoundaryInOrder(s: SimState)
    requires Boundary(s)
    ensures InOrder(s)
  {
  }

  /** Nobody overtakes, at any boundary of any run. */
  lemma NoOvertaking(config: SimulationConfig, draw: Draw, draws: seq<Draws>)
    requires ValidateSimulationConfig(config) && |draws| <= config.durationSec
    ensures InOrder(After(Initial(config, draw), draws))
  {
    InitialBoundary(config, draw);
    RunKeeps(Initial(config, draw), draws);
    BoundaryInOrder(After(Initial(config, draw), draws));
  }

  /** In every tick of every run the queue is drained in full: as many vehicles park as wait or
      find a spot, the oldest ones in the lowest free spots. */
  lemma TicksDrainInFull(s: SimState, d: Draws)
    requires Boundary(s) && s.elapsed < s.config.durationSec
    ensures WellFormed(s)
    ensures var m := DepartFrom(Arrive(s, d), 0);
            var r := Drain(m.lot, m.vehicles, m.elapsed);
            && SpotsFilled(m.lot, r.2, r.0.spots) && RecordsParked(m.lot, m.vehicles, m.elapsed, r.2, r.1)
            && r.0.waiting == m.lot.waiting[r.2..]
            && (r.2 == |m.lot.waiting| || r.2 == |FreeSpots(m.lot.spots, 0)|)
            && (r.0.waiting == [] || r.0.occupied == |r.0.spots|)
  {
    ArriveKeeps(s, d);
    DepartFromKeeps(Arrive(s, d), 0);
    var m := DepartFrom(Arrive(s, d), 0);
    DrainedLotIsSound(m);
    hide Boundary, InTick, Shape, SpotsMatch, Fifo, Dated, Arrive, DepartFrom, Drain, SpotsFilled, RecordsParked, FreeSpots, Sound;
    DrainsInFull(m.lot, m.vehicles, m.elapsed);
  }

  lemma DrainedLotIsSound(m: SimState)
    requires InTick(m)
    ensures Registered(m.lot, |m.vehicles|) && Sound(m.lot)
  {
  }

  /** An arrival parks exactly if a spot is free, and then in the lowest one; otherwise it is the
      last in the queue or is turned away, as the mode says. */
  lemma ArrivalTakesLowest(s: SimState, d: Draws)
    requires InTick(s) && s.elapsed >= s.nextArrival && |s.vehicles| < 1000
    ensures WellFormed(s) && |Arrive(s, d).vehicles| == |s.vehicles| + 1
    ensures var a, key := Arrive(s, d), |s.vehicles|;
            var v := a.vehicles[key];
            && (v.state.Parked? <==> exists p :: Free(s.lot, p))
            && (v.state.Parked? ==>
                  && Free(s.lot, v.spot) && (forall p :: 0 <= p < v.spot ==> !Free(s.lot, p))
                  && a.lot.spots[v.spot] == Some(key) && SameBut(a.lot.spots, s.lot.spots, v.spot)
                  && a.lot.waiting == s.lot.waiting)
            && (v.state.Waiting? ==> s.config.mode == 1 && a.lot.spots == s.lot.spots && a.lot.waiting == s.lot.waiting + [key])
            && (v.state.Left? ==> s.config.mode == 0 && a.lot == s.lot)
  {
    hide SpotsMatch, Fifo, Dated, RandomRange, TryParkResult;
    InTickWellFormed(s);
    var r := Register(s, d);
    TryParkMeans(s.lot, r.vehicles[|s.vehicles|], |s.vehicles|, s.elapsed);
  }

  /** The difference of the two counters is the number of free spots. */
  lemma FreeSpotsAreCounted(s: SimState)
    requires Boundary(s)
    ensures Wrap(|s.lot.spots| - s.lot.occupied) == |FreeSpots(s.lot.spots, 0)|
  {
    FreePlusOccupied(s.lot.spots, 0);
  }

  // ---------------------------------------------------------------- wrap-around

  const WRAPPING := SimulationConfig(1, WITH_WAIT, 10, 1, 1, TWO32 - 1, TWO32 - 1)

  /** The failing case occurs: a configuration that passes the validation, and a vehicle that the
      second tick parks and sends away again while its whole parking time is booked. */
  lemma ValidationDoesNotPreventWrap()
    ensures ValidateSimulationConfig(WRAPPING) && !ParkingTimesFit(WRAPPING)
    ensures var s := After(Initial(WRAPPING, 0), [Draws(0, 0), Draws(0, 0)]);
            && |s.vehicles| == 1 && s.vehicles[0].state.Left? && s.vehicles[0].departureTime == 0
            && s.vehicles[0].arrivalTime == 1 && s.elapsed == 2
            && s.stats.totalDeparted == 1 && s.stats.totalParkingTime == TWO32 - 1
  {
    var d := Draws(0, 0);
    var s0 := Initial(WRAPPING, 0);
    var s1 := Tick(s0, d);
    assert s1 == s0.(elapsed := 1);
    var a := Arrive(s1, d);
    var v := VehicleRec(1, 1, TWO32 - 1, 0, 0, Parked, 0);
    assert a.vehicles == [v] && a.lot == Lot([Some(0)], 1, [], WITH_WAIT);
    var m := DepartFrom(a, 0);
    assert m == DepartFrom(DepartOne(a, 0), 1) == DepartOne(a, 0);
    assert m.vehicles == [v.Leave()] && m.lot == Lot([None], 0, [], WITH_WAIT);
    assert Drain(m.lot, m.vehicles, m.elapsed) == (m.lot, m.vehicles, 0);
    assert [d, d][..1] == [d] && [d][..0] == [];
    assert After(s0, [d]) == Tick(After(s0, []), d);
    assert After(s0, [d, d]) == Tick(s1, d);
  }
}
