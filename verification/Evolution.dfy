/** How the vehicle records of one boundary relate to those of a later one, for every validated
    configuration: departure times are the sums the code computes, wrapped or not. */
module Evolution {
  import opened Words
  import opened Vehicles
  import opened Configuration
  import opened Parkings
  import opened Simulations
  import opened Invariants

  // ---------------------------------------------------------------- one tick

  /** What happens to a record in tick now: who waits may park at now, who is parked leaves if its
      time has come, and who has left stays away. */
  predicate Evolves(v: VehicleRec, w: VehicleRec, now: u32) {
    && w.id == v.id && w.arrivalTime == v.arrivalTime && w.parkingDuration == v.parkingDuration
    && (v.state.Waiting? ==> (w.state.Waiting? && w.departureTime == v.departureTime)
                             || (w.state.Parked? && w.departureTime == DepartureAt(now, w.parkingDuration)))
    && (v.state.Parked? ==> w.departureTime == v.departureTime && w.state == if now >= v.departureTime then Left else Parked)
    && (v.state.Left? ==> w.state.Left? && w.departureTime == v.departureTime)
  }

  ghost predicate AllEvolve(vs: seq<VehicleRec>, ws: seq<VehicleRec>, now: u32) {
    |vs| == |ws| && forall i :: 0 <= i < |vs| ==> Evolves(vs[i], ws[i], now)
  }

  lemma DepartOneExactly(s: SimState, i: nat)
    requires InTick(s) && i < |s.vehicles|
    ensures WellFormed(s)
    ensures DepartOne(s, i).vehicles
            == if s.vehicles[i].ShouldDepart(s.elapsed) then s.vehicles[i := s.vehicles[i].Leave()] else s.vehicles
  {
    InTickWellFormed(s);
  }

  /** The scan makes leave exactly those whose time has come. */
  lemma {:induction false} DepartFromExactly(s: SimState, i: nat)
    requires InTick(s) && i <= |s.vehicles|
    ensures WellFormed(s)
    ensures forall k :: 0 <= k < |s.vehicles| ==>
              DepartFrom(s, i).vehicles[k]
              == if k >= i && s.vehicles[k].ShouldDepart(s.elapsed) then s.vehicles[k].Leave() else s.vehicles[k]
    decreases |s.vehicles| - i
  {
    hide Shape, SpotsMatch, Fifo, Dated, DepartOne;
    InTickWellFormed(s);
    if i < |s.vehicles| {
      DepartOneKeeps(s, i);
      DepartOneExactly(s, i);
      DepartFromExactly(DepartOne(s, i), i + 1);
    }
  }

  /** Draining: somebody who waits may park, nothing else changes. */
  predicate Admits(v: VehicleRec, w: VehicleRec, now: u32) {
    if !v.state.Waiting? then w == v
    else
      && w.id == v.id && w.arrivalTime == v.arrivalTime && w.parkingDuration == v.parkingDuration
      && ((w.state.Waiting? && w.departureTime == v.departureTime)
          || (w.state.Parked? && w.departureTime == DepartureAt(now, w.parkingDuration)))
  }

  ghost predicate AllAdmit(vs: seq<VehicleRec>, ws: seq<VehicleRec>, now: u32) {
    |vs| == |ws| && forall i :: 0 <= i < |vs| ==> Admits(vs[i], ws[i], now)
  }

  lemma DrainStepAdmits(s: SimState)
    requires InTick(s) && CanDrain(s.lot)
    ensures s.lot.waiting[0] < |s.vehicles|
    ensures AllAdmit(s.vehicles, DrainStep(s).vehicles, s.elapsed)
  {
    DrainStepKeeps(s);
    hide SpotsMatch, Dated, DepartureAt;
  }

  lemma {:induction false} DrainAllAdmits(s: SimState)
    requires InTick(s)
    ensures WellFormed(s) && AllAdmit(s.vehicles, DrainAll(s).vehicles, s.elapsed)
    decreases |s.lot.waiting|
  {
    hide Shape, SpotsMatch, Fifo, Dated, DepartureAt;
    InTickWellFormed(s);
    if CanDrain(s.lot) {
      DrainStepKeeps(s);
      DrainStepAdmits(s);
      DrainAllAdmits(DrainStep(s));
    }
  }

  lemma SettleEvolves(s: SimState)
    requires InTick(s)
    ensures WellFormed(s) && AllEvolve(s.vehicles, Settle(s).vehicles, s.elapsed)
  {
    hide Shape, SpotsMatch, Fifo, Dated, DepartFrom, Drain, DepartureAt;
    DepartFromKeeps(s, 0);
    DepartFromExactly(s, 0);
    DrainAllAdmits(DepartFrom(s, 0));
    var m, r := DepartFrom(s, 0), Settle(s);
    forall i | 0 <= i < |s.vehicles|
      ensures Evolves(s.vehicles[i], r.vehicles[i], s.elapsed)
    {
      assert Admits(m.vehicles[i], r.vehicles[i], s.elapsed);
    }
  }

  /** What an arrival's record is right after it has tried to park. */
  predicate Arrived(w: VehicleRec, now: u32, mode: u32) {
    && w.arrivalTime == now
    && match w.state
       case Waiting => mode == WITH_WAIT && w.departureTime == 0
       case Parked => w.departureTime == DepartureAt(now, w.parkingDuration)
       case Left => mode == NO_WAIT && w.departureTime == 0
  }

  /** The arrival phase leaves the old records alone and adds at most one. */
  ghost predicate Adds(s: SimState, m: SimState) {
    && |s.vehicles| <= |m.vehicles| <= |s.vehicles| + 1
    && (forall i :: 0 <= i < |s.vehicles| ==> m.vehicles[i] == s.vehicles[i])
    && (forall i :: |s.vehicles| <= i < |m.vehicles| ==> Arrived(m.vehicles[i], s.elapsed, s.config.mode))
  }

  lemma ArriveAdds(s: SimState, d: Draws)
    requires InTick(s)
    ensures WellFormed(s) && Adds(s, Arrive(s, d))
  {
    InTickWellFormed(s);
    hide SpotsMatch, Fifo, Dated, DepartureAt, RandomRange;
    if ArrivalDue(s) {
      var r := Place(Register(s, d));
      assert forall i :: 0 <= i < |s.vehicles| ==> r.vehicles[i] == s.vehicles[i];
    }
  }

  /** A vehicle of this tick: it may have parked, on arrival or from the queue, and, if its
      departure time has wrapped around, left again. */
  predicate Newcomer(w: VehicleRec, now: u32, mode: u32) {
    && w.arrivalTime == now
    && match w.state
       case Waiting => mode == WITH_WAIT && w.departureTime == 0
       case Parked => w.departureTime == DepartureAt(now, w.parkingDuration)
       case Left =>
         || (mode == NO_WAIT && w.departureTime == 0)
         || w.departureTime == DepartureAt(now, w.parkingDuration) <= now
  }

  /** One tick: the old records evolve and at most one newcomer follows them. */
  ghost predicate Succeeds(s: SimState, r: SimState) {
    && |s.vehicles| <= |r.vehicles| <= |s.vehicles| + 1
    && (forall i :: 0 <= i < |s.vehicles| ==> Evolves(s.vehicles[i], r.vehicles[i], s.elapsed))
    && (forall i :: |s.vehicles| <= i < |r.vehicles| ==> Newcomer(r.vehicles[i], s.elapsed, s.config.mode))
  }

  lemma AddThenEvolve(s: SimState, m: SimState, r: SimState)
    requires Adds(s, m) && AllEvolve(m.vehicles, r.vehicles, s.elapsed)
    ensures Succeeds(s, r)
  {
    hide DepartureAt;
    forall i | |s.vehicles| <= i < |r.vehicles|
      ensures Newcomer(r.vehicles[i], s.elapsed, s.config.mode)
    {
      assert Evolves(m.vehicles[i], r.vehicles[i], s.elapsed);
    }
  }

  lemma TickSucceeds(s: SimState, d: Draws)
    requires Boundary(s) && s.elapsed < s.config.durationSec
    ensures WellFormed(s) && Succeeds(s, Tick(s, d))
  {
    ArriveKeeps(s, d);
    ArriveAdds(s, d);
    SettleEvolves(Arrive(s, d));
    AddThenEvolve(s, Arrive(s, d), Tick(s, d));
  }

  // ---------------------------------------------------------------- many ticks

  /** It parked at some tick of the interval. */
  ghost predicate ParkedWithin(w: VehicleRec, from: int, to: int) {
    exists p: u32 :: from <= p < to && w.departureTime == DepartureAt(p, w.parkingDuration)
  }

  /** From boundary now to boundary later: who is parked is still there exactly up to its
      departure time, who waits may have parked in between, who has left stays away. */
  ghost predicate Persists(v: VehicleRec, w: VehicleRec, now: int, later: int) {
    && w.id == v.id && w.arrivalTime == v.arrivalTime && w.parkingDuration == v.parkingDuration
    && (v.state.Waiting? ==> (w.state.Waiting? && w.departureTime == v.departureTime)
                             || (!w.state.Waiting? && ParkedWithin(w, now, later)))
    && (v.state.Parked? ==> !w.state.Waiting? && w.departureTime == v.departureTime
                            && (w.state.Parked? <==> now == later || later <= v.departureTime))
    && (v.state.Left? ==> w.state.Left? && w.departureTime == v.departureTime)
  }

  ghost predicate AllPersist(s: SimState, r: SimState) {
    && |s.vehicles| <= |r.vehicles|
    && (forall i :: 0 <= i < |s.vehicles| ==> Persists(s.vehicles[i], r.vehicles[i], s.elapsed, r.elapsed))
    && (forall i :: |s.vehicles| <= i < |r.vehicles| ==> r.vehicles[i].arrivalTime >= s.elapsed)
  }

  lemma PersistThenEvolve(v: VehicleRec, u: VehicleRec, w: VehicleRec, now: int, later: u32)
    requires Persists(v, u, now, later) && Evolves(u, w, later) && now <= later
    ensures Persists(v, w, now, later + 1)
  {
    hide DepartureAt;
    if v.state.Waiting? && !w.state.Waiting? {
      if u.state.Waiting? {
        assert w.departureTime == DepartureAt(later, w.parkingDuration);
      } else {
        var p: u32 :| now <= p < later && u.departureTime == DepartureAt(p, u.parkingDuration);
        assert w.departureTime == DepartureAt(p, w.parkingDuration);
      }
    }
  }

  lemma PersistThenSucceed(s: SimState, m: SimState, r: SimState)
    requires AllPersist(s, m) && Succeeds(m, r) && s.elapsed <= m.elapsed && r.elapsed == m.elapsed + 1
    ensures AllPersist(s, r)
  {
    hide Persists, Evolves;
    forall i | 0 <= i < |s.vehicles|
      ensures Persists(s.vehicles[i], r.vehicles[i], s.elapsed, r.elapsed)
    {
      PersistThenEvolve(s.vehicles[i], m.vehicles[i], r.vehicles[i], s.elapsed, m.elapsed);
    }
    forall i | |s.vehicles| <= i < |r.vehicles|
      ensures r.vehicles[i].arrivalTime >= s.elapsed
    {
      if i < |m.vehicles| {
        SameArrival(m.vehicles[i], r.vehicles[i], m.elapsed);
      }
    }
  }

  lemma SameArrival(v: VehicleRec, w: VehicleRec, now: u32)
    requires Evolves(v, w, now)
    ensures w.arrivalTime == v.arrivalTime
  {
  }

  lemma PersistsAtOnce(s: SimState)
    ensures AllPersist(s, s)
  {
  }

  /** Over any number of ticks: departures happen on time, waiting vehicles park later, and
      newcomers arrive later. */
  lemma {:induction false} RunPersists(s: SimState, draws: seq<Draws>)
    requires Boundary(s) && Fits(s, draws)
    ensures WellFormed(s) && AllPersist(s, After(s, draws))
    decreases |draws|
  {
    hide Boundary, Succeeds, AllPersist;
    BoundaryWellFormed(s);
    if draws == [] {
      PersistsAtOnce(s);
    } else {
      var early := draws[..|draws| - 1];
      RunPersists(s, early);
      RunKeeps(s, early);
      RunKeeps(s, draws);
      TickSucceeds(After(s, early), draws[|draws| - 1]);
      PersistThenSucceed(s, After(s, early), After(s, draws));
    }
  }
}
