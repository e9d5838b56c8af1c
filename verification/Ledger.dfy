/** The counters of server/statistics.c over a run: what they add up to, and that neither their
    saturating guards nor the overwrite at the end of a tick ever changes anything. */
module Ledger {
  import opened Words
  import opened Configuration
  import opened Vehicles
  import opened Parkings
  import opened Statistics
  import opened Simulations
  import opened Invariants

  /** It was admitted from the queue, rather than parked or turned away on arrival. */
  predicate FromQueue(v: VehicleRec) {
    !v.state.Waiting? && v.waitStartTime > 0
  }

  function FromQueueCount(vs: seq<VehicleRec>, n: nat): (r: nat)
    requires n <= |vs|
    ensures r <= n
  {
    if n == 0 then 0 else FromQueueCount(vs, n - 1) + One(FromQueue(vs[n - 1]))
  }

  lemma {:induction false} FromQueueCountUpdate(vs: seq<VehicleRec>, n: nat, i: nat, v: VehicleRec)
    requires i < |vs| && n <= |vs|
    ensures FromQueueCount(vs[i := v], n)
            == FromQueueCount(vs, n) + if i < n then One(FromQueue(v)) - One(FromQueue(vs[i])) else 0
  {
    if n > 0 {
      FromQueueCountUpdate(vs, n - 1, i, v);
    }
  }

  lemma {:induction false} FromQueueCountPrefix(vs: seq<VehicleRec>, ws: seq<VehicleRec>, n: nat)
    requires n <= |vs| && n <= |ws| && forall i :: 0 <= i < n ==> vs[i] == ws[i]
    ensures FromQueueCount(vs, n) == FromQueueCount(ws, n)
  {
    if n > 0 {
      FromQueueCountPrefix(vs, ws, n - 1);
    }
  }

  /** Everything the counters add up to. The books balance with respect to given numbers of
      arrivals, occupied spots, waiting vehicles and admissions from the queue. */
  predicate Balance(t: StatsRec, arrivals: int, occupied: int, waiting: int, admitted: int) {
    && t.totalArrivals == arrivals
    && t.totalArrivals == t.totalParked + t.totalLeftNoSpace + waiting
    && t.totalParked == t.totalDeparted + occupied
    && t.totalParkingCount == t.totalDeparted
    && t.currentParked == occupied
    && t.currentWaiting == waiting
    && t.totalWaited == t.totalWaitTime == admitted
  }

  ghost predicate Balanced(s: SimState) {
    Balance(s.stats, |s.vehicles|, s.lot.occupied, |s.lot.waiting|, FromQueueCount(s.vehicles, |s.vehicles|))
  }

  /** Nobody arrives at time 0. Waiting vehicles carry the time they began to wait, which is their
      arrival; in the no-wait mode no vehicle carries one. */
  ghost predicate Stamped(s: SimState) {
    && (s.nextArrival > 0 || s.elapsed > 0)
    && (forall i :: 0 <= i < |s.vehicles| ==>
          s.vehicles[i].arrivalTime > 0 && s.vehicles[i].waitStartTime in {0, s.vehicles[i].arrivalTime})
    && (forall i :: 0 <= i < |s.vehicles| && s.vehicles[i].state.Waiting? ==> s.vehicles[i].waitStartTime > 0)
    && (s.lot.mode == NO_WAIT ==> forall i :: 0 <= i < |s.vehicles| ==> s.vehicles[i].waitStartTime == 0)
  }

  // ---------------------------------------------------------------- a tick without safeguards

  function BareOutcome(t: StatsRec, result: int): StatsRec {
    if result == 1 then BareParked(t, 0)
    else if result == 0 then t
    else t.(totalLeftNoSpace := Wrap(t.totalLeftNoSpace + 1), currentWaiting := Wrap(t.currentWaiting - 1))
  }

  function BareParked(t: StatsRec, waitTime: u32): StatsRec {
    var r := t.(totalParked := Wrap(t.totalParked + 1), currentParked := Wrap(t.currentParked + 1),
                currentWaiting := Wrap(t.currentWaiting - 1));
    if waitTime > 0
    then r.(totalWaitTime := Wrap64(r.totalWaitTime + waitTime), totalWaited := Wrap(r.totalWaited + 1))
    else r
  }

  function BareParkedTimes(t: StatsRec, times: nat): StatsRec
    decreases times
  {
    if times == 0 then t else BareParkedTimes(BareParked(t, 1), times - 1)
  }

  function BareDeparture(t: StatsRec, parkingTime: u32): StatsRec {
    t.AddDeparture(parkingTime).(currentParked := Wrap(t.currentParked - 1))
  }

  function BareArrive(s: SimState, d: Draws): SimState
    requires WellFormed(s)
  {
    if !ArrivalDue(s) then s
    else
      var r := Register(s, d);
      var key := |s.vehicles|;
      Arrive(s, d).(stats := BareOutcome(s.stats.AddArrival(),
                                         TryParkResult(r.lot, r.vehicles[key], key, s.elapsed).2))
  }

  function BareDepartFrom(s: SimState, i: nat): (r: SimState)
    requires WellFormed(s) && i <= |s.vehicles|
    ensures WellFormed(r)
    decreases |s.vehicles| - i
  {
    if i == |s.vehicles| then s
    else if !s.vehicles[i].ShouldDepart(s.elapsed) then BareDepartFrom(s, i + 1)
    else BareDepartFrom(DepartOne(s, i).(stats := BareDeparture(s.stats, s.vehicles[i].parkingDuration)), i + 1)
  }

  /** A tick whose counters are decremented without guards and never overwritten. */
  function BareTick(s: SimState, d: Draws): SimState
    requires WellFormed(s)
  {
    var m := BareDepartFrom(BareArrive(s, d), 0);
    Advance(Refill(m).(stats := BareParkedTimes(m.stats, Drain(m.lot, m.vehicles, m.elapsed).2)))
  }

  // ---------------------------------------------------------------- the phases balance

  lemma InitialBalanced(config: SimulationConfig, draw: Draw)
    requires ValidateSimulationConfig(config)
    ensures Balanced(Initial(config, draw)) && Stamped(Initial(config, draw))
  {
  }

  lemma ArriveBalances(s: SimState, d: Draws)
    requires InTick(s) && Settled(s) && Balanced(s) && Stamped(s)
    ensures WellFormed(s) && Balanced(Arrive(s, d)) && Stamped(Arrive(s, d)) && BareArrive(s, d) == Arrive(s, d)
  {
    InTickWellFormed(s);
    FreeSpotMeansEmptyQueue(s);
    ArriveStamps(s, d);
    BareArrival(s, d);
    hide Stamped, BareArrive;
    if ArrivalDue(s) {
      var n := |s.vehicles|;
      FromQueueCountPrefix(s.vehicles, Arrive(s, d).vehicles, n);
    }
  }

  lemma ArriveStamps(s: SimState, d: Draws)
    requires InTick(s) && Stamped(s)
    ensures WellFormed(s) && Stamped(Arrive(s, d))
  {
    InTickWellFormed(s);
  }

  lemma BareArrival(s: SimState, d: Draws)
    requires InTick(s) && Settled(s) && Balanced(s)
    ensures WellFormed(s) && BareArrive(s, d) == Arrive(s, d)
  {
    InTickWellFormed(s);
    FreeSpotMeansEmptyQueue(s);
    hide Dated;
  }

  lemma DepartOneBalances(s: SimState, i: nat)
    requires InTick(s) && i < |s.vehicles| && Balanced(s) && Stamped(s)
    ensures WellFormed(s) && Balanced(DepartOne(s, i)) && Stamped(DepartOne(s, i))
    ensures s.vehicles[i].ShouldDepart(s.elapsed) ==>
              DepartOne(s, i).stats == BareDeparture(s.stats, s.vehicles[i].parkingDuration)
  {
    InTickWellFormed(s);
    var v := s.vehicles[i];
    if v.ShouldDepart(s.elapsed) {
      FromQueueCountUpdate(s.vehicles, |s.vehicles|, i, v.Leave());
      OneIsParked(s, i);
    }
  }

  lemma OneIsParked(s: SimState, i: nat)
    requires SpotsMatch(s) && i < |s.vehicles| && s.vehicles[i].state.Parked?
    ensures s.lot.occupied > 0
  {
    ParkedCountUpdate(s.vehicles, |s.vehicles|, i, s.vehicles[i].Leave());
  }

  lemma {:induction false} DepartFromBalances(s: SimState, i: nat)
    requires InTick(s) && i <= |s.vehicles| && Balanced(s) && Stamped(s)
    ensures WellFormed(s) && Balanced(DepartFrom(s, i)) && Stamped(DepartFrom(s, i))
    ensures BareDepartFrom(s, i) == DepartFrom(s, i)
    decreases |s.vehicles| - i
  {
    InTickWellFormed(s);
    if i < |s.vehicles| {
      DepartOneKeeps(s, i);
      DepartOneBalances(s, i);
      DepartFromBalances(DepartOne(s, i), i + 1);
      hide Shape, SpotsMatch, Fifo, Dated, Balanced, Stamped;
    }
  }

  /** Admissions from the queue move the books from the waiting to the parked side. */
  lemma {:induction false} ParkedTimesBalance(t: StatsRec, times: nat, arrivals: int, occupied: int, waiting: int, admitted: int)
    requires Balance(t, arrivals, occupied, waiting, admitted) && times <= waiting && arrivals <= MAX_SIM_VEHICLES
    requires 0 <= occupied && 0 <= admitted && occupied + waiting <= arrivals && admitted + waiting <= arrivals
    ensures Balance(t.AddParkedTimes(times, 1), arrivals, occupied + times, waiting - times, admitted + times)
    ensures BareParkedTimes(t, times) == t.AddParkedTimes(times, 1)
    decreases times
  {
    if times > 0 {
      ParkedTimesBalance(t.AddParked(1), times - 1, arrivals, occupied + 1, waiting - 1, admitted + 1);
    }
  }

  lemma {:induction false} DrainAdmits(s: SimState)
    requires InTick(s) && Stamped(s)
    ensures WellFormed(s) && Stamped(DrainAll(s))
    ensures FromQueueCount(DrainAll(s).vehicles, |s.vehicles|)
            == FromQueueCount(s.vehicles, |s.vehicles|) + Drain(s.lot, s.vehicles, s.elapsed).2
    decreases |s.lot.waiting|
  {
    InTickWellFormed(s);
    if CanDrain(s.lot) {
      DrainStepKeeps(s);
      var key := s.lot.waiting[0];
      FromQueueCountUpdate(s.vehicles, |s.vehicles|, key, DrainStep(s).vehicles[key]);
      DrainAdmits(DrainStep(s));
    }
  }

  lemma {:induction false} FromQueueBeforeHead(vs: seq<VehicleRec>, head: nat, n: nat)
    requires head <= n <= |vs| && forall i :: head <= i < n ==> vs[i].state.Waiting?
    ensures FromQueueCount(vs, n) == FromQueueCount(vs, head)
  {
    if head < n {
      FromQueueBeforeHead(vs, head, n - 1);
    }
  }

  lemma {:induction false} ParkedBeforeHead(vs: seq<VehicleRec>, head: nat, n: nat)
    requires head <= n <= |vs| && forall i :: head <= i < n ==> vs[i].state.Waiting?
    ensures ParkedCount(vs, n) == ParkedCount(vs, head)
  {
    if head < n {
      ParkedBeforeHead(vs, head, n - 1);
    }
  }

  lemma RefillBalances(s: SimState)
    requires InTick(s) && Balanced(s) && Stamped(s)
    ensures WellFormed(s) && Balanced(Refill(s)) && Stamped(Refill(s))
    ensures Refill(s).stats == BareParkedTimes(s.stats, Drain(s.lot, s.vehicles, s.elapsed).2)
  {
    InTickWellFormed(s);
    var count := Drain(s.lot, s.vehicles, s.elapsed).2;
    FromQueueBeforeHead(s.vehicles, Head(s), |s.vehicles|);
    ParkedBeforeHead(s.vehicles, Head(s), |s.vehicles|);
    DrainKeeps(s);
    DrainAdmits(s);
    ParkedTimesBalance(s.stats, count, |s.vehicles|, s.lot.occupied, |s.lot.waiting|,
                       FromQueueCount(s.vehicles, |s.vehicles|));
  }

  /** Just before the overwrite both counters already have the values written. */
  lemma OverwriteChangesNothing(s: SimState)
    requires WellFormed(s) && Balanced(s)
    ensures Overwrite(s) == s
  {
  }

  lemma TickBalances(s: SimState, d: Draws)
    requires Boundary(s) && s.elapsed < s.config.durationSec && Balanced(s) && Stamped(s)
    ensures WellFormed(s) && Balanced(Tick(s, d)) && Stamped(Tick(s, d)) && BareTick(s, d) == Tick(s, d)
  {
    ArriveKeeps(s, d);
    ArriveBalances(s, d);
    var a := Arrive(s, d);
    DepartFromKeeps(a, 0);
    DepartFromBalances(a, 0);
    var m := DepartFrom(a, 0);
    RefillBalances(m);
    OverwriteChangesNothing(Refill(m));
  }

  /** In every state of every run the books balance. */
  lemma {:induction false} RunBalances(config: SimulationConfig, draw: Draw, draws: seq<Draws>)
    requires ValidateSimulationConfig(config) && |draws| <= config.durationSec
    ensures Balanced(After(Initial(config, draw), draws)) && Stamped(After(Initial(config, draw), draws))
    decreases |draws|
  {
    hide Boundary, Balanced, Stamped, Tick, BareTick;
    var init := Initial(config, draw);
    InitialBoundary(config, draw);
    if draws == [] {
      InitialBalanced(config, draw);
    } else {
      var early := draws[..|draws| - 1];
      RunBalances(config, draw, early);
      RunKeeps(init, early);
      TickBalances(After(init, early), draws[|draws| - 1]);
    }
  }

  /** At any point of any run, the next tick is the same with and without the safeguards. */
  lemma SafeguardsNeverAct(config: SimulationConfig, draw: Draw, draws: seq<Draws>, d: Draws)
    requires ValidateSimulationConfig(config) && |draws| < config.durationSec
    ensures BareTick(After(Initial(config, draw), draws), d) == Tick(After(Initial(config, draw), draws), d)
  {
    hide Boundary, Balanced, Stamped, Tick, BareTick, After;
    InitialBoundary(config, draw);
    RunKeeps(Initial(config, draw), draws);
    RunBalances(config, draw, draws);
    TickBalances(After(Initial(config, draw), draws), d);
  }
}
