/** The pace of arrivals. */
module Arrivals {
  import opened Words
  import opened Configuration
  import opened Simulations
  import opened Invariants
  import opened Evolution

  /** When vehicle i arrived, or is to arrive if it is the next one. */
  function ArrivalOf(s: SimState, i: nat): int
    requires i <= |s.vehicles|
  {
    if i < |s.vehicles| then s.vehicles[i].arrivalTime else s.nextArrival
  }

  /** The time between two arrivals, or before the first. */
  function Gap(s: SimState, i: nat): int
    requires i <= |s.vehicles|
  {
    ArrivalOf(s, i) - if i == 0 then 0 else ArrivalOf(s, i - 1)
  }

  /** Consecutive arrivals, including the one scheduled next, are one interval apart. */
  ghost predicate Spaced(s: SimState) {
    forall i :: 0 <= i <= |s.vehicles| ==>
      s.config.minArrivalInterval <= Gap(s, i) <= s.config.maxArrivalInterval
  }

  /** Below the cap no scheduled arrival has been missed. */
  ghost predicate Punctual(s: SimState) {
    |s.vehicles| < MAX_SIM_VEHICLES ==> s.nextArrival >= s.elapsed
  }

  /** An arrival happens at exactly the tick it was scheduled for, although the code only tests
      that the time has come. */
  lemma ArrivesOnSchedule(s: SimState)
    requires Punctual(s)
    ensures ArrivalDue(s) <==> |s.vehicles| < MAX_SIM_VEHICLES && s.elapsed == s.nextArrival
  {
  }

  lemma ArriveSpaces(s: SimState, d: Draws)
    requires InTick(s) && ArrivalTimesFit(s.config) && Spaced(s) && Punctual(s)
    ensures WellFormed(s)
    ensures Spaced(Arrive(s, d))
    ensures |Arrive(s, d).vehicles| < MAX_SIM_VEHICLES ==> Arrive(s, d).nextArrival > s.elapsed
  {
    InTickWellFormed(s);
    var n, r := |s.vehicles|, Arrive(s, d);
    if ArrivalDue(s) {
      assert forall i :: 0 <= i < n ==> r.vehicles[i] == s.vehicles[i];
      assert r.vehicles[n].arrivalTime == s.elapsed == s.nextArrival;
      forall i | 0 <= i <= n
        ensures Gap(r, i) == Gap(s, i)
      {
      }
      var interval := RandomRange(s.config.minArrivalInterval, s.config.maxArrivalInterval, d.interval);
      assert s.config.minArrivalInterval <= interval <= s.config.maxArrivalInterval;
      hide RandomRange;
      assert r.nextArrival == s.elapsed + interval;
      assert Gap(r, n + 1) == interval;
    }
  }

  lemma TickSpaces(s: SimState, d: Draws)
    requires Boundary(s) && s.elapsed < s.config.durationSec && ArrivalTimesFit(s.config) && Spaced(s) && Punctual(s)
    ensures WellFormed(s) && Spaced(Tick(s, d)) && Punctual(Tick(s, d))
  {
    ArriveKeeps(s, d);
    ArriveSpaces(s, d);
    hide SpotsMatch, Fifo, Dated, Settled, Arrive, DepartFrom, Refill;
    var a, r := Arrive(s, d), Tick(s, d);
    SettleEvolves(a);
    assert r.nextArrival == a.nextArrival;
    assert r.config == a.config;
    forall i | 0 <= i < |r.vehicles|
      ensures r.vehicles[i].arrivalTime == a.vehicles[i].arrivalTime
    {
      assert Evolves(a.vehicles[i], r.vehicles[i], s.elapsed);
    }
    assert forall i :: 0 <= i <= |r.vehicles| ==> Gap(r, i) == Gap(a, i);
  }

  /** In every state of every run the arrivals are one interval apart and on time. */
  lemma {:induction false} RunSpaces(config: SimulationConfig, draw: Draw, draws: seq<Draws>)
    requires ValidateSimulationConfig(config) && ArrivalTimesFit(config) && |draws| <= config.durationSec
    ensures Spaced(After(Initial(config, draw), draws)) && Punctual(After(Initial(config, draw), draws))
    decreases |draws|
  {
    InitialBoundary(config, draw);
    if draws == [] {
      assert Gap(Initial(config, draw), 0) == Initial(config, draw).nextArrival;
    } else {
      var early := draws[..|draws| - 1];
      RunSpaces(config, draw, early);
      RunKeeps(Initial(config, draw), early);
      TickSpaces(After(Initial(config, draw), early), draws[|draws| - 1]);
    }
  }

  lemma {:induction false} SpacingAddsUp(s: SimState, i: nat)
    requires Spaced(s) && i <= |s.vehicles|
    ensures (i + 1) * s.config.minArrivalInterval <= ArrivalOf(s, i) <= (i + 1) * s.config.maxArrivalInterval
  {
    assert s.config.minArrivalInterval <= Gap(s, i) <= s.config.maxArrivalInterval;
    if i > 0 {
      SpacingAddsUp(s, i - 1);
    }
    OneMore(i, s.config.minArrivalInterval);
    OneMore(i, s.config.maxArrivalInterval);
  }

  /** Bounds on the number of vehicles from the time, and on the next arrival from the number
      of vehicles. */
  lemma ArrivalRate(config: SimulationConfig, draw: Draw, draws: seq<Draws>)
    requires ValidateSimulationConfig(config) && ArrivalTimesFit(config) && |draws| <= config.durationSec
    ensures var s := After(Initial(config, draw), draws);
            var n := |s.vehicles|;
            && (n + 1) * config.minArrivalInterval <= s.nextArrival <= (n + 1) * config.maxArrivalInterval
            && n * config.minArrivalInterval <= |draws|
            && (n < MAX_SIM_VEHICLES ==> |draws| <= (n + 1) * config.maxArrivalInterval)
  {
    hide Spaced, SpotsMatch, Fifo, Settled, After;
    InitialBoundary(config, draw);
    RunKeeps(Initial(config, draw), draws);
    RunSpaces(config, draw, draws);
    var s := After(Initial(config, draw), draws);
    SpacingAddsUp(s, |s.vehicles|);
    if |s.vehicles| > 0 {
      SpacingAddsUp(s, |s.vehicles| - 1);
    }
  }

  /** The next arrival lies in the future exactly if its time fits in 32 bits. */
  lemma NextArrivalIsLaterIffNoWrap(s: SimState, d: Draws)
    requires WellFormed(s)
    ensures Reschedule(s, d).nextArrival > s.elapsed
            <==> s.elapsed + RandomRange(s.config.minArrivalInterval, s.config.maxArrivalInterval, d.interval) < TWO32
  {
  }

  /** After a tick with an arrival, and below the cap, another vehicle arrives in the very next
      tick exactly if the interval drawn is 1 or its sum does not fit. */
  lemma ArrivalFollowsAtOnceIff(s: SimState, d: Draws)
    requires Boundary(s) && s.elapsed < s.config.durationSec && ArrivalDue(s)
    ensures WellFormed(s)
    ensures var interval := RandomRange(s.config.minArrivalInterval, s.config.maxArrivalInterval, d.interval);
            ArrivalDue(Tick(s, d))
            <==> |Tick(s, d).vehicles| < MAX_SIM_VEHICLES && (interval == 1 || s.elapsed + interval >= TWO32)
  {
    BoundaryWellFormed(s);
    hide Place, Register, DepartFrom, Refill, RandomRange;
    TickKeeps(s, d);
  }

  // ---------------------------------------------------------------- the draws

  /** The parking time that the draw of a tick gives to its arrival. */
  function DrawnDuration(c: SimulationConfig, d: Draws): u32
    requires ValidateSimulationConfig(c)
  {
    RandomRange(c.minParkingTime, c.maxParkingTime, d.duration)
  }

  /** When the next vehicle is due after one at a tick, whose interval the draw of the tick gives. */
  function DrawnArrival(c: SimulationConfig, now: u32, d: Draws): u32
    requires ValidateSimulationConfig(c)
  {
    Wrap(now + RandomRange(c.minArrivalInterval, c.maxArrivalInterval, d.interval))
  }

  /** The tick at which vehicle i is due. */
  ghost function DueAt(s: SimState, draw: Draw, draws: seq<Draws>, i: nat): int
    requires ValidateSimulationConfig(s.config) && i <= |s.vehicles|
  {
    if i == 0 then RandomRange(s.config.minArrivalInterval, s.config.maxArrivalInterval, draw)
    else if s.vehicles[i - 1].arrivalTime >= |draws| then 0
    else DrawnArrival(s.config, s.vehicles[i - 1].arrivalTime, draws[s.vehicles[i - 1].arrivalTime])
  }

  /** The first tick at which vehicle i could arrive: one vehicle a tick. */
  function Earliest(s: SimState, i: nat): int
    requires i <= |s.vehicles|
  {
    if i == 0 then 0 else s.vehicles[i - 1].arrivalTime + 1
  }

  /** Vehicle i arrives when it is due, or as soon as it can after that, with the parking time
      drawn then. */
  ghost predicate ArrivesAsDrawn(s: SimState, draw: Draw, draws: seq<Draws>, i: nat)
    requires ValidateSimulationConfig(s.config) && i < |s.vehicles|
  {
    var v, due, earliest := s.vehicles[i], DueAt(s, draw, draws, i), Earliest(s, i);
    && v.arrivalTime == (if due < earliest then earliest else due)
    && v.arrivalTime < |draws| && v.parkingDuration == DrawnDuration(s.config, draws[v.arrivalTime])
  }

  /** All vehicles have arrived as drawn, and the next one is not due before the ticks done so
      far, unless the cap of 1000 has been reached. */
  ghost predicate AsDrawn(s: SimState, draw: Draw, draws: seq<Draws>)
    requires ValidateSimulationConfig(s.config)
  {
    && |s.vehicles| <= 1000
    && (forall i :: 0 <= i < |s.vehicles| ==> ArrivesAsDrawn(s, draw, draws, i))
    && s.nextArrival == DueAt(s, draw, draws, |s.vehicles|)
    && Earliest(s, |s.vehicles|) <= |draws|
    && (|s.vehicles| < 1000 ==> |draws| <= s.nextArrival || |draws| == Earliest(s, |s.vehicles|))
  }

  /** A tick, for the vehicle records and the schedule. */
  ghost predicate ArrivalTick(s: SimState, r: SimState, d: Draws)
    requires ValidateSimulationConfig(s.config)
  {
    var due := s.elapsed >= s.nextArrival && |s.vehicles| < 1000;
    && r.config == s.config && |r.vehicles| == |s.vehicles| + (if due then 1 else 0)
    && (forall i :: 0 <= i < |s.vehicles| ==>
          r.vehicles[i].arrivalTime == s.vehicles[i].arrivalTime && r.vehicles[i].parkingDuration == s.vehicles[i].parkingDuration)
    && (due ==> r.vehicles[|s.vehicles|].arrivalTime == s.elapsed
                && r.vehicles[|s.vehicles|].parkingDuration == DrawnDuration(s.config, d))
    && r.nextArrival == if due then DrawnArrival(s.config, s.elapsed, d) else s.nextArrival
  }

  /** One phase: an arrival is due exactly if its time has come and fewer than 1000 have arrived; it
      has the parking time drawn and schedules the next one by the interval drawn. */
  lemma ArriveDraws(s: SimState, d: Draws)
    requires InTick(s)
    ensures WellFormed(s) && ArrivalTick(s, Arrive(s, d), d)
  {
    InTickWellFormed(s);
    hide SpotsMatch, Fifo, Dated, RandomRange;
  }

  lemma TickDraws(s: SimState, d: Draws)
    requires Boundary(s) && s.elapsed < s.config.durationSec
    ensures WellFormed(s) && ArrivalTick(s, Tick(s, d), d)
  {
    ArriveKeeps(s, d);
    ArriveDraws(s, d);
    SettleEvolves(Arrive(s, d));
    hide SpotsMatch, Fifo, Dated, Settled, Arrive, DepartFrom, Refill, DrawnDuration, DrawnArrival;
    var a, r := Arrive(s, d), Tick(s, d);
    assert r.config == a.config && r.nextArrival == a.nextArrival;
    forall i | 0 <= i < |r.vehicles|
      ensures r.vehicles[i].arrivalTime == a.vehicles[i].arrivalTime && r.vehicles[i].parkingDuration == a.vehicles[i].parkingDuration
    {
      assert Evolves(a.vehicles[i], r.vehicles[i], s.elapsed);
    }
  }

  lemma OneMoreDraw(s: SimState, r: SimState, draw: Draw, draws: seq<Draws>, d: Draws)
    requires ValidateSimulationConfig(s.config) && AsDrawn(s, draw, draws) && s.elapsed == |draws|
    requires ArrivalTick(s, r, d)
    ensures AsDrawn(r, draw, draws + [d])
  {
    hide DrawnDuration, DrawnArrival, ValidateSimulationConfig;
    forall i | 0 <= i < |r.vehicles|
      ensures ArrivesAsDrawn(r, draw, draws + [d], i)
    {
      if i < |s.vehicles| {
        assert ArrivesAsDrawn(s, draw, draws, i);
      }
      if i > 0 {
        assert ArrivesAsDrawn(s, draw, draws, i - 1);
      }
    }
    if |s.vehicles| > 0 {
      assert ArrivesAsDrawn(s, draw, draws, |s.vehicles| - 1);
    }
  }

  /** Every run follows its draws: this fixes who arrives when, with what parking time, for every
      validated configuration. */
  lemma {:induction false} RunFollowsDraws(config: SimulationConfig, draw: Draw, draws: seq<Draws>)
    requires ValidateSimulationConfig(config) && |draws| <= config.durationSec
    ensures After(Initial(config, draw), draws).config == config
    ensures AsDrawn(After(Initial(config, draw), draws), draw, draws)
    decreases |draws|
  {
    hide Boundary, Tick, AsDrawn, ArrivalTick;
    InitialBoundary(config, draw);
    if draws == [] {
      NothingDrawn(config, draw);
    } else {
      var early, d := draws[..|draws| - 1], draws[|draws| - 1];
      RunFollowsDraws(config, draw, early);
      RunKeeps(Initial(config, draw), early);
      TickDraws(After(Initial(config, draw), early), d);
      RunKeeps(Initial(config, draw), draws);
      OneMoreDraw(After(Initial(config, draw), early), After(Initial(config, draw), draws), draw, early, d);
      assert draws == early + [d];
    }
  }

  lemma NothingDrawn(config: SimulationConfig, draw: Draw)
    requires ValidateSimulationConfig(config)
    ensures AsDrawn(Initial(config, draw), draw, [])
  {
  }
}
