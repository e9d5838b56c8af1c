/** Nobody waits for ever: a bound on the wait from the position in the queue. */
module Waiting {
  import opened Vehicles
  import opened Simulations
  import opened Invariants
  import opened Evolution
  import opened Schedule
  import opened Stays

  lemma {:induction false} NoneParkedUpTo(vs: seq<VehicleRec>, n: nat)
    requires n <= |vs| && forall i :: 0 <= i < n ==> !vs[i].state.Parked?
    ensures ParkedCount(vs, n) == 0
  {
    if n > 0 {
      NoneParkedUpTo(vs, n - 1);
    }
  }

  /** One longest parking time later, everyone who was parked has gone. */
  lemma AllGone(s: SimState, r: SimState, i: nat)
    requires Boundary(s) && Boundary(r) && AllPersist(s, r) && r.config == s.config
    requires r.elapsed >= s.elapsed + s.config.maxParkingTime && i < |s.vehicles|
    requires !s.vehicles[i].state.Waiting? && r.elapsed > s.elapsed
    ensures !r.vehicles[i].state.Parked?
  {
    hide SpotsMatch, Fifo, Settled, ParkedWithin;
    assert Persists(s.vehicles[i], r.vehicles[i], s.elapsed, r.elapsed);
  }

  lemma LongestIsPositive(s: SimState)
    requires Boundary(s)
    ensures s.config.maxParkingTime > 0
  {
  }

  lemma HeadAdvances(s: SimState, r: SimState)
    requires Boundary(s) && Boundary(r) && AllPersist(s, r) && r.lot.waiting != []
    ensures Head(s) <= Head(r)
  {
    hide SpotsMatch, Dated, Settled, Shape;
    assert r.vehicles[Head(r)].state.Waiting?;
    forall i | 0 <= i < Head(s)
      ensures !r.vehicles[i].state.Waiting?
    {
      assert Persists(s.vehicles[i], r.vehicles[i], s.elapsed, r.elapsed);
    }
  }

  /** If somebody of the queue is still waiting then, the lot has been filled anew from the
      queue: its head has moved on by at least the number of spots. */
  lemma QueueMovesOn(s: SimState, r: SimState)
    requires Boundary(s) && Boundary(r) && AllPersist(s, r) && r.config == s.config
    requires r.elapsed >= s.elapsed + s.config.maxParkingTime
    requires r.lot.waiting != []
    ensures Head(r) >= Head(s) + |s.lot.spots|
  {
    LongestIsPositive(s);
    forall i | 0 <= i < Head(s)
      ensures !r.vehicles[i].state.Parked?
    {
      AllGone(s, r, i);
    }
    NoneParkedUpTo(r.vehicles, Head(s));
    NoneParkedAfter(r.vehicles, Head(r), |r.vehicles|);
    HeadAdvances(s, r);
    ParkedCountGrows(r.vehicles, Head(s), Head(r));
  }

  /** How many ticks a vehicle at a given queue position waits at most. */
  function WaitBound(position: nat, spots: nat, maxParkingTime: nat): nat
    requires spots > 0
  {
    (position / spots + 1) * maxParkingTime
  }

  lemma TimesMonotone(a: nat, b: nat, x: nat)
    requires a <= b
    ensures a * x + x <= (b + 1) * x
  {
  }

  lemma FewerRounds(position: nat, later: nat, spots: nat, maxParkingTime: nat)
    requires spots > 0 && later + spots <= position
    ensures WaitBound(later, spots, maxParkingTime) + maxParkingTime <= WaitBound(position, spots, maxParkingTime)
  {
    QuotientDrops(position, later, spots);
    TimesMonotone(later / spots + 1, position / spots, maxParkingTime);
  }

  lemma QuotientDrops(position: nat, later: nat, spots: nat)
    requires spots > 0 && later + spots <= position
    ensures later / spots + 1 <= position / spots
  {
  }

  lemma AtLeastOneRound(position: nat, spots: nat, maxParkingTime: nat)
    requires spots > 0
    ensures WaitBound(position, spots, maxParkingTime) >= maxParkingTime
  {
  }

  /** Whoever is still waiting one longest parking time later has moved up in the queue by at
      least the number of spots. */
  lemma MovesUp(s: SimState, r: SimState, k: nat)
    requires Boundary(s) && Boundary(r) && AllPersist(s, r) && r.config == s.config
    requires r.elapsed >= s.elapsed + s.config.maxParkingTime
    requires k < |s.lot.waiting| && s.lot.waiting[k] < |r.vehicles| && r.vehicles[s.lot.waiting[k]].state.Waiting?
    ensures |r.lot.spots| == |s.lot.spots| && 0 <= s.lot.waiting[k] - Head(r) < |r.lot.waiting|
    ensures s.lot.waiting[k] - Head(r) + |s.lot.spots| <= k
    ensures r.lot.waiting[s.lot.waiting[k] - Head(r)] == s.lot.waiting[k]
  {
    QueueMovesOn(s, r);
  }

  lemma {:induction false} ParksInTime(s: SimState, draws: seq<Draws>, k: nat)
    requires Boundary(s) && Fits(s, draws) && k < |s.lot.waiting|
    requires |s.lot.spots| > 0 && |draws| >= WaitBound(k, |s.lot.spots|, s.config.maxParkingTime)
    ensures WellFormed(s) && s.lot.waiting[k] < |After(s, draws).vehicles|
    ensures !After(s, draws).vehicles[s.lot.waiting[k]].state.Waiting?
    decreases k
  {
    hide Boundary, WaitBound, After, AllPersist, WellFormed, Head;
    var j, c, m := s.lot.waiting[k], |s.lot.spots|, s.config.maxParkingTime as nat;
    BoundaryWellFormed(s);
    AtLeastOneRound(k, c, m);
    RunKeeps(s, draws[..m]);
    RunPersists(s, draws[..m]);
    Resume(s, draws, m);
    var r := After(s, draws[..m]);
    RunPersists(r, draws[m..]);
    PersistTogether(s, r, After(s, draws), k);
    if r.vehicles[j].state.Waiting? {
      MovesUp(s, r, k);
      FewerRounds(k, j - Head(r), c, m);
      ParksInTime(r, draws[m..], j - Head(r));
    }
  }

  lemma PersistTogether(s: SimState, m: SimState, r: SimState, k: nat)
    requires Boundary(s) && AllPersist(s, m) && AllPersist(m, r) && k < |s.lot.waiting|
    ensures s.lot.waiting[k] < |s.vehicles| <= |m.vehicles| <= |r.vehicles|
    ensures !m.vehicles[s.lot.waiting[k]].state.Waiting? ==> !r.vehicles[s.lot.waiting[k]].state.Waiting?
  {
  }

  /** In any run that lasts long enough, the vehicle at position k of the queue parks within
      k / spots + 1 longest parking times, whether or not departure times wrap around. */
  lemma WaitIsBounded(s: SimState, draws: seq<Draws>, k: nat)
    requires Boundary(s) && Fits(s, draws) && k < |s.lot.waiting|
    requires |draws| >= WaitBound(k, |s.lot.spots|, s.config.maxParkingTime)
    ensures WellFormed(s) && s.lot.waiting[k] < |After(s, draws).vehicles|
    ensures var v := After(s, draws).vehicles[s.lot.waiting[k]];
            !v.state.Waiting?
            && ParkedWithin(v, s.elapsed, s.elapsed + WaitBound(k, |s.lot.spots|, s.config.maxParkingTime))
  {
    var bound, j := WaitBound(k, |s.lot.spots|, s.config.maxParkingTime), s.lot.waiting[k];
    BoundaryWellFormed(s);
    WaiterExists(s, k);
    var r := After(s, draws[..bound]);
    ParksInTime(s, draws[..bound], k);
    RunKeeps(s, draws[..bound]);
    RunPersists(s, draws[..bound]);
    Resume(s, draws, bound);
    RunPersists(r, draws[bound..]);
    hide Boundary, After, WaitBound;
    SettledTimes(s.vehicles[j], r.vehicles[j], After(s, draws).vehicles[j], s.elapsed, r.elapsed, After(s, draws).elapsed);
  }

  lemma WaiterExists(s: SimState, k: nat)
    requires Boundary(s) && k < |s.lot.waiting|
    ensures s.lot.waiting[k] < |s.vehicles| && s.vehicles[s.lot.waiting[k]].state.Waiting?
  {
  }

  lemma SettledTimes(v: VehicleRec, u: VehicleRec, w: VehicleRec, from: int, now: int, later: int)
    requires Persists(v, u, from, now) && Persists(u, w, now, later) && v.state.Waiting? && !u.state.Waiting?
    ensures !w.state.Waiting? && ParkedWithin(w, from, now)
  {
    hide DepartureAt;
  }
}
