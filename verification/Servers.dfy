/** The reference the wait mode refines: customers served in order of arrival by a fixed number
    of servers, computed customer by customer from the times at which servers become free. It
    knows arrivals and service times only: no ticks, spots, queue or vehicle states. */
module Servers {
  import opened Configuration
  import opened Simulations
  import opened Invariants
  import opened Timing
  import opened Schedule

  datatype Customer = Customer(arrival: int, service: int)

  function Max(a: int, b: int): int {
    if a >= b then a else b
  }

  /** The server that becomes free first. */
  function Earliest(free: seq<int>): (k: nat)
    requires |free| > 0
    ensures k < |free| && forall j :: 0 <= j < |free| ==> free[k] <= free[j]
  {
    if |free| == 1 then 0
    else
      var k := Earliest(free[1..]);
      assert free == [free[0]] + free[1..];
      if free[0] <= free[k + 1] then 0 else k + 1
  }

  /** When each server becomes free once the first n customers are assigned: each customer
      goes to the server that is free first. */
  function FreeAfter(cs: seq<Customer>, servers: nat, n: nat): (free: seq<int>)
    requires n <= |cs| && servers > 0
    ensures |free| == servers
  {
    if n == 0 then seq(servers, _ => 0)
    else
      var free := FreeAfter(cs, servers, n - 1);
      var k := Earliest(free);
      free[k := Max(cs[n - 1].arrival, free[k]) + cs[n - 1].service]
  }

  /** When customer n starts: on arrival, or when the first server becomes free. */
  function StartOf(cs: seq<Customer>, servers: nat, n: nat): int
    requires n < |cs| && servers > 0
  {
    var free := FreeAfter(cs, servers, n);
    Max(cs[n].arrival, free[Earliest(free)])
  }

  function NextFree(cs: seq<Customer>, servers: nat, n: nat): int
    requires n <= |cs| && servers > 0
  {
    var free := FreeAfter(cs, servers, n);
    free[Earliest(free)]
  }

  /** Servers are never freed before the last start, unless that start was on arrival. */
  lemma NextFreeAfterStart(cs: seq<Customer>, servers: nat, n: nat)
    requires n < |cs| && servers > 0 && cs[n].service >= 0
    ensures StartOf(cs, servers, n) == cs[n].arrival || NextFree(cs, servers, n + 1) >= StartOf(cs, servers, n)
  {
  }

  /** Customers start in order. */
  lemma StartsInOrder(cs: seq<Customer>, servers: nat, n: nat)
    requires 0 < n < |cs| && servers > 0 && cs[n - 1].service >= 0 && cs[n - 1].arrival <= cs[n].arrival
    ensures StartOf(cs, servers, n - 1) <= StartOf(cs, servers, n)
  {
  }

  // ---------------------------------------------------------------- busy servers

  function BusyServers(free: seq<int>, n: nat, t: int): (r: nat)
    requires n <= |free|
    ensures r <= n
    ensures r == n <==> forall k :: 0 <= k < n ==> free[k] > t
  {
    if n == 0 then 0 else BusyServers(free, n - 1, t) + One(free[n - 1] > t)
  }

  lemma {:induction false} BusyServersUpdate(free: seq<int>, n: nat, k: nat, x: int, t: int)
    requires n <= |free| && k < |free|
    ensures BusyServers(free[k := x], n, t)
            == BusyServers(free, n, t) + if k < n then One(x > t) - One(free[k] > t) else 0
  {
    if n > 0 {
      BusyServersUpdate(free, n - 1, k, x, t);
    }
  }

  /** Seen from its start on, assigning a customer adds it to the busy servers and removes
      nobody. */
  lemma AssignBusy(cs: seq<Customer>, servers: nat, n: nat, t: int)
    requires n < |cs| && servers > 0 && t >= StartOf(cs, servers, n)
    ensures BusyServers(FreeAfter(cs, servers, n + 1), servers, t)
            == BusyServers(FreeAfter(cs, servers, n), servers, t)
               + One(StartOf(cs, servers, n) + cs[n].service > t)
  {
    var free := FreeAfter(cs, servers, n);
    BusyServersUpdate(free, servers, Earliest(free), StartOf(cs, servers, n) + cs[n].service, t);
  }

  lemma {:induction false} AllServersFree(free: seq<int>, n: nat, t: int)
    requires n <= |free| && forall k :: 0 <= k < |free| ==> free[k] <= t
    ensures BusyServers(free, n, t) == 0
  {
    if n > 0 {
      AllServersFree(free, n - 1, t);
    }
  }

  // ---------------------------------------------------------------- the refinement

  function Customers(s: SimState): (cs: seq<Customer>)
    ensures |cs| == |s.vehicles|
  {
    seq(|s.vehicles|, i requires 0 <= i < |s.vehicles| =>
      Customer(s.vehicles[i].arrivalTime, s.vehicles[i].parkingDuration))
  }

  /** The park tick of the vehicle before i. */
  function LastPark(s: SimState, i: nat): int
    requires i <= |s.vehicles|
  {
    if i == 0 then 0 else s.vehicles[i - 1].ParkTick()
  }

  /** At time t as many spots are held by the vehicles before i as the reference has servers
      busy with them. */
  ghost predicate EquallyBusy(s: SimState, i: nat, t: int)
    requires i <= |s.vehicles| && |s.lot.spots| > 0
  {
    Busy(s.vehicles, i, t) == BusyServers(FreeAfter(Customers(s), |s.lot.spots|, i), |s.lot.spots|, t)
  }

  /** So it is from the last park tick on. */
  ghost predicate BusyAlike(s: SimState, i: nat)
    requires i <= |s.vehicles| && |s.lot.spots| > 0
  {
    forall t :: t >= LastPark(s, i) ==> EquallyBusy(s, i, t)
  }

  /** The vehicles before i have parked when the reference says. */
  ghost predicate StartAlike(s: SimState, i: nat)
    requires i <= |s.vehicles| && |s.lot.spots| > 0
  {
    forall j :: 0 <= j < i ==> s.vehicles[j].ParkTick() == StartOf(Customers(s), |s.lot.spots|, j)
  }

  ghost predicate Agree(s: SimState, i: nat)
    requires i <= |s.vehicles| && |s.lot.spots| > 0
  {
    BusyAlike(s, i) && StartAlike(s, i)
  }

  ghost predicate WaitModeRun(s: SimState) {
    Timed(s) && Scheduled(s) && s.config.mode == WITH_WAIT
  }

  lemma ServedBeforeHead(s: SimState, i: nat)
    requires WaitModeRun(s) && i < |s.vehicles|
    ensures i < Head(s) ==> s.vehicles[i].Served() && s.vehicles[i].arrivalTime <= s.vehicles[i].ParkTick() < s.elapsed
    ensures i >= Head(s) ==> s.vehicles[i].state.Waiting?
    ensures s.vehicles[i].arrivalTime < s.elapsed && s.vehicles[i].parkingDuration > 0 && OnSchedule(s, i)
  {
  }

  /** Wherever all spots are held by earlier vehicles from i's arrival on, the reference does
      not let customer i start. */
  lemma StartNotBefore(s: SimState, i: nat, limit: int)
    requires WaitModeRun(s) && i < |s.vehicles| && i <= Head(s) && Agree(s, i)
    requires forall t :: s.vehicles[i].arrivalTime <= t < limit ==> Busy(s.vehicles, i, t) >= |s.lot.spots|
    ensures StartOf(Customers(s), |s.lot.spots|, i) >= limit
  {
    var cs, c := Customers(s), |s.lot.spots|;
    var start := StartOf(cs, c, i);
    if i > 0 {
      ServedBeforeHead(s, i - 1);
      NextFreeAfterStart(cs, c, i - 1);
      assert cs[i - 1].arrival < cs[i].arrival;
    }
    assert start >= LastPark(s, i);
    assert EquallyBusy(s, i, start);
  }

  /** Vehicles park in order. */
  lemma ParksInOrder(s: SimState, i: nat)
    requires WaitModeRun(s) && i < Head(s)
    ensures s.vehicles[i].ParkTick() >= LastPark(s, i)
  {
    ServedBeforeHead(s, i);
    if i > 0 {
      ServedBeforeHead(s, i - 1);
      BusyGrows(s.vehicles, i - 1, i, s.vehicles[i].ParkTick());
      assert s.vehicles[i - 1].arrivalTime < s.vehicles[i].arrivalTime;
    }
  }

  lemma StartIsParkTick(s: SimState, i: nat)
    requires WaitModeRun(s) && i < Head(s) && Agree(s, i)
    ensures StartOf(Customers(s), |s.lot.spots|, i) == s.vehicles[i].ParkTick()
  {
    ServedBeforeHead(s, i);
    ParksInOrder(s, i);
    StartNotBefore(s, i, s.vehicles[i].ParkTick());
    assert EquallyBusy(s, i, s.vehicles[i].ParkTick());
  }

  lemma AgreeStepAt(s: SimState, i: nat, t: int)
    requires WaitModeRun(s) && i < Head(s) && Agree(s, i) && t >= s.vehicles[i].ParkTick()
    ensures EquallyBusy(s, i + 1, t)
  {
    var cs, c := Customers(s), |s.lot.spots|;
    ServedBeforeHead(s, i);
    ParksInOrder(s, i);
    StartIsParkTick(s, i);
    assert EquallyBusy(s, i, t);
    AssignBusy(cs, c, i, t);
    hide WaitModeRun, Agree, FreeAfter, StartOf, BusyServers;
  }

  lemma StartAlikeStep(s: SimState, i: nat)
    requires i < |s.vehicles| && |s.lot.spots| > 0 && StartAlike(s, i)
    requires s.vehicles[i].ParkTick() == StartOf(Customers(s), |s.lot.spots|, i)
    ensures StartAlike(s, i + 1)
  {
    hide StartOf, Customers;
  }

  lemma BusyAlikeStep(s: SimState, i: nat)
    requires WaitModeRun(s) && i < Head(s) && Agree(s, i)
    ensures BusyAlike(s, i + 1)
  {
    hide Agree, EquallyBusy;
    var next := i + 1;
    forall t: int
      ensures t >= s.vehicles[i].ParkTick() ==> EquallyBusy(s, next, t)
    {
      if t >= s.vehicles[i].ParkTick() {
        AgreeStepAt(s, i, t);
      }
    }
  }

  lemma AgreeStep(s: SimState, i: nat)
    requires WaitModeRun(s) && i < Head(s) && Agree(s, i)
    ensures Agree(s, i + 1)
  {
    hide StartAlike, BusyAlike, StartOf, Customers;
    BusyAlikeStep(s, i);
    StartIsParkTick(s, i);
    StartAlikeStep(s, i);
  }

  lemma AgreeStart(s: SimState)
    requires |s.lot.spots| > 0
    ensures Agree(s, 0)
  {
    forall t: int
      ensures t >= 0 ==> EquallyBusy(s, 0, t)
    {
      if t >= 0 {
        AllServersFree(FreeAfter(Customers(s), |s.lot.spots|, 0), |s.lot.spots|, t);
      }
    }
  }

  lemma {:induction false} AgreeUpTo(s: SimState, i: nat)
    requires WaitModeRun(s) && i <= Head(s)
    ensures Agree(s, i)
  {
    hide Agree, Scheduled, Settled, SpotsMatch, Timely;
    if i == 0 {
      AgreeStart(s);
    } else {
      AgreeUpTo(s, i - 1);
      AgreeStep(s, i - 1);
    }
  }

  lemma {:induction false} WaitersStartLater(s: SimState, i: nat)
    requires WaitModeRun(s) && Head(s) <= i < |s.vehicles|
    ensures StartOf(Customers(s), |s.lot.spots|, i) >= s.elapsed
    decreases i
  {
    ServedBeforeHead(s, i);
    if i == Head(s) {
      AgreeUpTo(s, i);
      StartNotBefore(s, i, s.elapsed);
    } else {
      WaitersStartLater(s, i - 1);
      ServedBeforeHead(s, i - 1);
      assert s.vehicles[i - 1].arrivalTime < s.vehicles[i].arrivalTime;
      hide WaitModeRun, OnSchedule, StartOf;
      StartsInOrder(Customers(s), |s.lot.spots|, i);
    }
  }

  /** In every state of every wait-mode run, a vehicle has parked exactly if the reference
      starts it before the current time, and it parked at that very tick. */
  lemma TickLoopRefinesServers(config: SimulationConfig, draw: Draw, draws: seq<Draws>, i: nat)
    requires ValidateSimulationConfig(config) && |draws| <= config.durationSec && config.mode == WITH_WAIT
    ensures var s := After(Initial(config, draw), draws);
            StaysFit(s) && i < |s.vehicles| ==>
              var start := StartOf(Customers(s), config.parkingSpots, i);
              && (s.vehicles[i].Served() <==> start < |draws|)
              && (s.vehicles[i].Served() ==> s.vehicles[i].ParkTick() == start)
              && (s.vehicles[i].state.Waiting? <==> start >= |draws|)
  {
    RunBoundary(config, draw, draws);
    var s := After(Initial(config, draw), draws);
    if StaysFit(s) && i < |s.vehicles| {
      RunSchedules(config, draw, draws);
      ServedBeforeHead(s, i);
      if i < Head(s) {
        AgreeUpTo(s, i + 1);
      } else {
        WaitersStartLater(s, i);
      }
    }
  }
}
