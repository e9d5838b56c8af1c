/** The simulation's configuration (common/protocol.h, common/config.h) and the two
    functions of common/utils.c that the simulation depends on. */
module Configuration {
  import opened Words

  const MAX_PARKING_SPOTS: u32 := 200
  const MAX_SIM_VEHICLES := 1000
  const MIN_SIMULATION_TIME: u32 := 10
  const MAX_SIMULATION_TIME: u32 := 3600
  const MENU_CAP: u32 := 3600

  const NO_WAIT: u32 := 0
  const WITH_WAIT: u32 := 1

  /** The mode is an enumeration in the source, but it arrives from the network as an
      arbitrary word, so it is a word here too. */
  datatype SimulationConfig = SimulationConfig(
    parkingSpots: u32, mode: u32, durationSec: u32,
    minArrivalInterval: u32, maxArrivalInterval: u32,
    minParkingTime: u32, maxParkingTime: u32)

  predicate ValidateSimulationConfig(c: SimulationConfig)
  {
    && 0 < c.parkingSpots <= MAX_PARKING_SPOTS
    && (c.mode == NO_WAIT || c.mode == WITH_WAIT)
    && MIN_SIMULATION_TIME <= c.durationSec <= MAX_SIMULATION_TIME
    && 0 < c.minArrivalInterval <= c.maxArrivalInterval
    && 0 < c.minParkingTime <= c.maxParkingTime
  }

  /** What the validation does not check: that adding a parking time, or an arrival interval,
      to a tick of the run fits in 32 bits. */
  predicate ParkingTimesFit(c: SimulationConfig)
  {
    c.durationSec + c.maxParkingTime <= TWO32
  }

  predicate ArrivalTimesFit(c: SimulationConfig)
  {
    c.durationSec + c.maxArrivalInterval <= TWO32
  }

  /** The bounds the client's menu puts on the four interval fields. */
  predicate WithinMenuCaps(c: SimulationConfig)
  {
    c.maxArrivalInterval <= MENU_CAP && c.maxParkingTime <= MENU_CAP
  }

  /** Every configuration the menu lets a user build is free of wrap-around. */
  lemma MenuCapsPreventWrap(c: SimulationConfig)
    requires ValidateSimulationConfig(c) && WithinMenuCaps(c)
    ensures ParkingTimesFit(c) && ArrivalTimesFit(c)
  {
  }

  /** A value returned by rand(): RAND_MAX is 2^31 - 1. */
  type Draw = x: int | 0 <= x < 0x8000_0000

  /** The only arguments on which the source's modulus is zero are (0, 2^32 - 1). */
  function RandomRange(min: u32, max: u32, draw: Draw): (r: u32)
    requires !(min == 0 && max == TWO32 - 1)
    ensures min <= max ==> min <= r <= max
  {
    if min >= max then min else min + draw % (max - min + 1)
  }

  lemma QuotientAndRemainder(d: nat, n: nat)
    requires n > 0
    ensures d == d / n * n + d % n
  {
  }

  /** Above the lower bound the result is the remainder of the draw by the size of the range. */
  lemma RandomRangeIsRemainder(min: u32, max: u32, draw: Draw) returns (q: nat)
    requires min <= max && !(min == 0 && max == TWO32 - 1)
    ensures min <= RandomRange(min, max, draw) <= max
    ensures draw == q * (max - min + 1) + (RandomRange(min, max, draw) - min)
  {
    if min == max {
      q := draw;
    } else {
      var n: nat := max - min + 1;
      QuotientAndRemainder(draw, n);
      assert RandomRange(min, max, draw) - min == draw % n;
      hide RandomRange;
      q := draw / n;
    }
  }

  /** The validation in numbers. */
  lemma ValidationInNumbers(c: SimulationConfig)
    ensures ValidateSimulationConfig(c)
            <==> 1 <= c.parkingSpots <= 200 && c.mode <= 1 && 10 <= c.durationSec <= 3600
                 && 1 <= c.minArrivalInterval <= c.maxArrivalInterval && 1 <= c.minParkingTime <= c.maxParkingTime
  {
  }

  ghost predicate Attainable(min: u32, max: u32, v: u32)
    requires !(min == 0 && max == TWO32 - 1)
  {
    exists d: Draw :: RandomRange(min, max, d) == v
  }

  lemma SmallModulus(d: int, n: int)
    requires 0 <= d < n
    ensures d % n == d
  {
  }

  /** Every value of the range is drawn by some rand() result exactly when the range is no
      wider than RAND_MAX. */
  lemma RandomRangeOnto(min: u32, max: u32)
    requires min <= max && !(min == 0 && max == TWO32 - 1)
    ensures (forall v: u32 :: min <= v <= max ==> Attainable(min, max, v)) <==> max - min < 0x8000_0000
  {
    if max - min < 0x8000_0000 {
      forall v: u32 | min <= v <= max
        ensures Attainable(min, max, v)
      {
        DrawFor(min, max, v);
      }
    } else {
      DrawMisses(min, max);
    }
  }

  lemma DrawFor(min: u32, max: u32, v: u32)
    requires min <= v <= max && max - min < 0x8000_0000
    ensures Attainable(min, max, v)
  {
    var d: Draw := v - min;
    SmallModulus(d, max - min + 1);
    assert RandomRange(min, max, d) == v;
  }

  lemma DrawMisses(min: u32, max: u32)
    requires !(min == 0 && max == TWO32 - 1) && max - min >= 0x8000_0000
    ensures !Attainable(min, max, min + 0x8000_0000)
  {
  }
}
