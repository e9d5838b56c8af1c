/** server/statistics.c: the incremental counters and their saturating decrements. */
module Statistics {
  import opened Words

  datatype StatsRec = StatsRec(
    totalArrivals: u32, totalParked: u32, totalLeftNoSpace: u32, totalDeparted: u32,
    currentParked: u32, currentWaiting: u32,
    totalParkingTime: u64, totalParkingCount: u32, totalWaitTime: u64, totalWaited: u32)
  {
    function AddArrival(): StatsRec {
      this.(totalArrivals := Wrap(totalArrivals + 1), currentWaiting := Wrap(currentWaiting + 1))
    }

    function AddParked(waitTime: u32): StatsRec {
      var s := this.(totalParked := Wrap(totalParked + 1), currentParked := Wrap(currentParked + 1),
                     currentWaiting := Saturating(currentWaiting));
      if waitTime > 0
      then s.(totalWaitTime := Wrap64(totalWaitTime + waitTime), totalWaited := Wrap(totalWaited + 1))
      else s
    }

    function AddDeparture(parkingTime: u32): StatsRec {
      this.(totalDeparted := Wrap(totalDeparted + 1), currentParked := Saturating(currentParked),
            totalParkingTime := Wrap64(totalParkingTime + parkingTime),
            totalParkingCount := Wrap(totalParkingCount + 1))
    }

    function AddLeftNoSpace(): StatsRec {
      this.(totalLeftNoSpace := Wrap(totalLeftNoSpace + 1), currentWaiting := Saturating(currentWaiting))
    }

    /** The simulation's loop over the vehicles parked from the queue. */
    function AddParkedTimes(times: nat, waitTime: u32): StatsRec
      decreases times
    {
      if times == 0 then this else AddParked(waitTime).AddParkedTimes(times - 1, waitTime)
    }
  }

  const ZERO := StatsRec(0, 0, 0, 0, 0, 0, 0, 0, 0, 0)

  /** Parking from the queue leaves the books of departures and refusals alone. */
  lemma {:induction false} ParkedTimesBookNothing(t: StatsRec, times: nat)
    ensures t.AddParkedTimes(times, 1).totalParkingTime == t.totalParkingTime
    ensures t.AddParkedTimes(times, 1).totalParkingCount == t.totalParkingCount
    ensures t.AddParkedTimes(times, 1).totalLeftNoSpace == t.totalLeftNoSpace
    ensures t.AddParkedTimes(times, 1).totalDeparted == t.totalDeparted
    decreases times
  {
    if times > 0 {
      ParkedTimesBookNothing(t.AddParked(1), times - 1);
    }
  }

  /** The guarded decrement: it stays at zero instead of going below. */
  function Saturating(x: u32): u32 {
    if x > 0 then x - 1 else x
  }

  class Statistics {
    var totalArrivals: u32
    var totalParked: u32
    var totalLeftNoSpace: u32
    var totalDeparted: u32
    var currentParked: u32
    var currentWaiting: u32
    var totalParkingTime: u64
    var totalParkingCount: u32
    var totalWaitTime: u64
    var totalWaited: u32

    ghost function Rec(): StatsRec
      reads this
    {
      StatsRec(totalArrivals, totalParked, totalLeftNoSpace, totalDeparted, currentParked, currentWaiting,
               totalParkingTime, totalParkingCount, totalWaitTime, totalWaited)
    }

    constructor ()
      ensures Rec() == ZERO
    {
      totalArrivals, totalParked, totalLeftNoSpace, totalDeparted := 0, 0, 0, 0;
      currentParked, currentWaiting := 0, 0;
      totalParkingTime, totalParkingCount, totalWaitTime, totalWaited := 0, 0, 0, 0;
    }

    method AddArrival()
      modifies this
      ensures Rec() == old(Rec()).AddArrival()
      ensures Rec() == old(Rec()).(totalArrivals := totalArrivals, currentWaiting := currentWaiting)
      ensures totalArrivals == Wrap(old(totalArrivals) + 1) && currentWaiting == Wrap(old(currentWaiting) + 1)
    {
      totalArrivals := Wrap(totalArrivals + 1);
      currentWaiting := Wrap(currentWaiting + 1);
    }

    method AddParked(waitTime: u32)
      modifies this
      ensures Rec() == old(Rec()).AddParked(waitTime)
      ensures Rec() == old(Rec()).(totalParked := totalParked, currentParked := currentParked,
                                   currentWaiting := currentWaiting, totalWaitTime := totalWaitTime, totalWaited := totalWaited)
      ensures totalParked == Wrap(old(totalParked) + 1) && currentParked == Wrap(old(currentParked) + 1)
      ensures currentWaiting == if old(currentWaiting) == 0 then 0 else old(currentWaiting) - 1
      ensures waitTime == 0 ==> totalWaitTime == old(totalWaitTime) && totalWaited == old(totalWaited)
      ensures waitTime > 0 ==>
                totalWaitTime == Wrap64(old(totalWaitTime) + waitTime) && totalWaited == Wrap(old(totalWaited) + 1)
    {
      totalParked := Wrap(totalParked + 1);
      currentParked := Wrap(currentParked + 1);
      if currentWaiting > 0 {
        currentWaiting := currentWaiting - 1;
      }
      if waitTime > 0 {
        totalWaitTime := Wrap64(totalWaitTime + waitTime);
        totalWaited := Wrap(totalWaited + 1);
      }
    }

    method AddDeparture(parkingTime: u32)
      modifies this
      ensures Rec() == old(Rec()).AddDeparture(parkingTime)
      ensures Rec() == old(Rec()).(totalDeparted := totalDeparted, currentParked := currentParked,
                                   totalParkingTime := totalParkingTime, totalParkingCount := totalParkingCount)
      ensures totalDeparted == Wrap(old(totalDeparted) + 1) && totalParkingCount == Wrap(old(totalParkingCount) + 1)
      ensures currentParked == if old(currentParked) == 0 then 0 else old(currentParked) - 1
      ensures totalParkingTime == Wrap64(old(totalParkingTime) + parkingTime)
    {
      totalDeparted := Wrap(totalDeparted + 1);
      if currentParked > 0 {
        currentParked := currentParked - 1;
      }
      totalParkingTime := Wrap64(totalParkingTime + parkingTime);
      totalParkingCount := Wrap(totalParkingCount + 1);
    }

    method AddLeftNoSpace()
      modifies this
      ensures Rec() == old(Rec()).AddLeftNoSpace()
      ensures Rec() == old(Rec()).(totalLeftNoSpace := totalLeftNoSpace, currentWaiting := currentWaiting)
      ensures totalLeftNoSpace == Wrap(old(totalLeftNoSpace) + 1)
      ensures currentWaiting == if old(currentWaiting) == 0 then 0 else old(currentWaiting) - 1
    {
      totalLeftNoSpace := Wrap(totalLeftNoSpace + 1);
      if currentWaiting > 0 {
        currentWaiting := currentWaiting - 1;
      }
    }
  }
}
