/** From the simulation's lock to the client's screen: what a client decodes is one whole tick
    boundary. */
module EndToEnd {
  import opened Words
  import opened Configuration
  import opened Simulations
  import opened Reports
  import opened History
  import opened Locking
  import opened Interleavings
  import opened Codec
  import opened Network
  import opened Handlers
  import opened Conversations

  /** Statistics as they travel carry the report's counters, and its averages in some
      representation of floats as four bytes. */
  predicate Carries(t: WireStats, r: Report, encode: real -> Raw) {
    && t.totalArrivals == r.totalArrivals && t.totalParked == r.totalParked
    && t.totalLeftNoSpace == r.totalLeftNoSpace && t.totalDeparted == r.totalDeparted
    && t.currentParked == r.currentParked && t.currentWaiting == r.currentWaiting
    && t.avgParkingTime == encode(r.avgParkingTime) && t.avgWaitTime == encode(r.avgWaitTime)
    && t.occupancyRate == encode(r.occupancyRate)
  }

  /** Reader i has returned; it asked when at least from ticks were complete. */
  predicate Returned(s: System, i: int, from: nat) {
    && 0 <= i < |s.readers| && (s.readers[i].StateDone? || s.readers[i].StatsDone?)
    && from <= s.readers[i].since
  }

  /** The handler's snapshot for a question is what a call of the snapshot function returned that
      was made after from ticks. */
  ghost predicate TakenAfter(s: System, from: nat, q: Request, snap: Snapshot, encode: real -> Raw) {
    match q
    case AskState =>
      exists i :: Returned(s, i, from) && s.readers[i].StateDone? && snap.state == Some(s.readers[i].state)
    case AskStatistics =>
      exists i :: Returned(s, i, from) && s.readers[i].StatsDone? && snap.stats.Some?
                     && Carries(snap.stats.value, s.readers[i].report, encode)
  }

  /** The answer tells what has happened in the first at ticks, in all its fields. */
  ghost predicate Shows(o: Outcome, q: Request, s: System, at: nat, encode: real -> Raw)
    requires ValidateSimulationConfig(s.config)
  {
    && at <= |s.ticks| && o.Got?
    && match q
       case AskState =>
         && o.frame.StateUpdate?
         && TellsState(o.frame.state, s.config, s.first, s.ticks[..at]) && ConsistentState(o.frame.state, s.config)
       case AskStatistics =>
         && o.frame.StatsUpdate?
         && exists r: Report ::
              Carries(o.frame.stats, r, encode)
              && TellsReport(r, s.config, s.first, s.ticks[..at]) && ConsistentReport(r, s.config)
  }

  lemma SnapshotShows(run: seq<System>, n: nat, from: nat, q: Request, snap: Snapshot, encode: real -> Raw)
      returns (at: nat)
    requires IsRun(run) && n < |run| && TakenAfter(run[n], from, q, snap, encode)
    ensures ValidateSimulationConfig(run[n].config) && from <= at <= |run[n].ticks|
    ensures Shows(SnapshotOutcome(q, snap), q, run[n], at, encode)
  {
    hide IsRun, TellsState, TellsReport, ConsistentState, ConsistentReport, Carries;
    match q
    case AskState =>
      var i :| Returned(run[n], i, from) && run[n].readers[i].StateDone? && snap.state == Some(run[n].readers[i].state);
      StatesAreWhole(run, n, i);
      at := run[n].readers[i].at;
    case AskStatistics =>
      var i :| Returned(run[n], i, from) && run[n].readers[i].StatsDone? && snap.stats.Some?
               && Carries(snap.stats.value, run[n].readers[i].report, encode);
      StatisticsAreWhole(run, n, i);
      at := run[n].readers[i].at;
  }

  /** In any session of an accepted client with a server whose simulation runs in any way among
      any callers: if the handler's snapshot for question i was taken after from ticks, then what
      the client decodes as the answer tells what has happened up to one tick boundary, not older
      than that, in all its fields. */
  lemma ClientsSeeWholeTicks(run: seq<System>, n: nat, from: nat, s: Session, present: bool, w: World, i: nat,
                             encode: real -> Raw)
    requires IsRun(run) && n < |run| && Accepted(s, present) && i < |s.requests|
    requires TakenAfter(run[n], from, s.requests[i], w.snapshots(i), encode)
    ensures ValidateSimulationConfig(run[n].config)
    ensures var k := if s.opening.Create? then i + 1 else i;
            && k < |ClientExchanges(s, Received(s, present, w))|
            && exists at :: from <= at <= |run[n].ticks|
                 && Shows(ClientExchanges(s, Received(s, present, w))[k].outcome, s.requests[i], run[n], at, encode)
  {
    hide IsRun, TakenAfter, Shows, ClientExchanges, Received, SnapshotOutcome, Accepted;
    AnswersAreTheSnapshots(s, present, w, i);
    var at := SnapshotShows(run, n, from, s.requests[i], w.snapshots(i), encode);
  }
}
