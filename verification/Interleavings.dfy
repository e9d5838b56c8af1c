/** What the locking of server/simulation.c guarantees over every run: whole snapshots, a
    bounded stop, one join, and no deadlock. */
module Interleavings {
  import opened Words
  import opened Configuration
  import opened Simulations
  import opened Invariants
  import opened Reports
  import opened History
  import opened Locking

  // ---------------------------------------------------------------- snapshots

  /** A returned state is that of one tick boundary between the reader's call and now, however
      the ticks and the other callers interleaved: each of its fields tells what has happened in
      the ticks up to there, and they are consistent. */
  lemma StatesAreWhole(run: seq<System>, n: nat, i: nat)
    requires IsRun(run) && n < |run| && i < |run[n].readers| && run[n].readers[i].StateDone?
    ensures ValidateSimulationConfig(run[n].config)
    ensures var s, r := run[n], run[n].readers[i];
            && r.since <= r.at <= |s.ticks|
            && TellsState(r.state, s.config, s.first, s.ticks[..r.at]) && ConsistentState(r.state, s.config)
  {
    hide IsRun, LocksMatch, StopMatches, After, StatsSnapshot, StateSnapshot, MidTick, TellsState, ConsistentState;
    RunsKeep(run, n);
    WholeSnapshots(run[n], run[n].readers[i].at);
  }

  /** And so are returned statistics. */
  lemma StatisticsAreWhole(run: seq<System>, n: nat, i: nat)
    requires IsRun(run) && n < |run| && i < |run[n].readers| && run[n].readers[i].StatsDone?
    ensures ValidateSimulationConfig(run[n].config)
    ensures var s, r := run[n], run[n].readers[i];
            && r.since <= r.at <= |s.ticks|
            && TellsReport(r.report, s.config, s.first, s.ticks[..r.at]) && ConsistentReport(r.report, s.config)
  {
    hide IsRun, LocksMatch, StopMatches, After, StatsSnapshot, StateSnapshot, MidTick, TellsReport, ConsistentReport;
    RunsKeep(run, n);
    WholeSnapshots(run[n], run[n].readers[i].at);
  }

  lemma WholeSnapshots(s: System, at: nat)
    requires ValidateSimulationConfig(s.config) && |s.ticks| <= s.config.durationSec
    ensures at <= |s.ticks| ==>
              var b := BoundaryAfter(s, at);
              && TellsState(StateSnapshot(b), s.config, s.first, s.ticks[..at]) && ConsistentState(StateSnapshot(b), s.config)
              && TellsReport(StatsSnapshot(b), s.config, s.first, s.ticks[..at]) && ConsistentReport(StatsSnapshot(b), s.config)
  {
    hide After, StatsSnapshot, StateSnapshot, TellsState, TellsReport, ConsistentState, ConsistentReport;
    if at <= |s.ticks| {
      SnapshotsAreConsistent(s.config, s.first, s.ticks[..at]);
      SnapshotsTell(s.config, s.first, s.ticks[..at]);
    }
  }

  // ---------------------------------------------------------------- stopping

  /** The simulation has been started and is no longer running. */
  predicate Stopped(s: System) {
    PastStart(s.starter) && !s.running
  }

  /** Once stopped it stays stopped, and how it stopped is settled. */
  predicate StaysStopped(s: System, t: System) {
    && Stopped(t)
    && t.clearedAt == s.clearedAt && t.clearer == s.clearer
    && s.begun <= t.begun
    && (s.clearedAt.None? ==> t.thread.Finished? && t.begun == s.begun && t.joins == s.joins)
  }

  lemma CallStaysStopped(s: System, t: System)
    requires FlagMatches(s) && Stopped(s) && IsCall(s, t)
    ensures StaysStopped(s, t)
  {
  }

  lemma StepStaysStopped(s: System, a: Action)
    requires Inv(s) && Stopped(s) && Enabled(s, a)
    ensures WellFormed(s.sim) && StaysStopped(s, Step(s, a))
  {
    ClockIsTicks(s);
    hide DataMatches, LocksMatch, ReadersMatch, PhaseEffect, BodyNext, ReaderNext;
    match a
    case ThreadMoves(move, d) => ThreadStaysStopped(s, move, d);
    case StarterMoves => StarterStaysStopped(s);
    case StopperMoves(i) => StopperStaysStopped(s, i);
    case ReaderMoves(i) =>
  }

  lemma ThreadStaysStopped(s: System, move: Move, d: Draws)
    requires WellFormed(s.sim) && FlagMatches(s) && Stopped(s) && ThreadEnabled(s, move)
    ensures StaysStopped(s, ThreadStep(s, move, d))
  {
    hide PhaseEffect, BodyNext;
  }

  lemma StarterStaysStopped(s: System)
    requires FlagMatches(s) && Stopped(s) && StarterEnabled(s)
    ensures StaysStopped(s, StarterStep(s))
  {
  }

  lemma StopperStaysStopped(s: System, i: nat)
    requires FlagMatches(s) && JoinsMatch(s) && Stopped(s) && i < |s.stoppers| && StopperEnabled(s, i)
    ensures StaysStopped(s, StopperStep(s, i))
  {
  }

  lemma NextStaysStopped(s: System, t: System)
    requires Inv(s) && Stopped(s) && Next(s, t)
    ensures StaysStopped(s, t)
  {
    hide DataMatches, LocksMatch, ReadersMatch, Enabled, Step;
    if IsCall(s, t) {
      CallStaysStopped(s, t);
    } else {
      var a :| Enabled(s, a) && t == Step(s, a);
      StepStaysStopped(s, a);
    }
  }

  lemma {:induction false} StoppedForGood(run: seq<System>, n: nat, m: nat)
    requires IsRun(run) && n <= m < |run| && Stopped(run[n])
    ensures StaysStopped(run[n], run[m])
    decreases m
  {
    hide Inv, Next;
    RunsKeep(run, n);
    if m > n {
      StoppedForGood(run, n, m - 1);
      RunsKeep(run, m - 1);
      assert Next(run[m - 1], run[m - 1 + 1]);
      NextStaysStopped(run[m - 1], run[m]);
    } else {
      StoppedNow(run[n]);
    }
  }

  lemma StoppedNow(s: System)
    requires Inv(s) && Stopped(s)
    ensures StaysStopped(s, s)
  {
  }

  /** After the running flag has been cleared it is never set again, and at most one more tick
      body begins, for the thread reads the flag without the lock. */
  lemma AtMostOneMoreBody(run: seq<System>, n: nat, m: nat)
    requires IsRun(run) && n <= m < |run| && Stopped(run[n])
    ensures !run[m].running && run[n].begun <= run[m].begun <= run[n].begun + 1
  {
    StoppedForGood(run, n, m);
    RunsKeep(run, n);
    RunsKeep(run, m);
    hide LocksMatch, DataMatches, ReadersMatch, JoinsMatch;
  }

  /** The bound is met: in some run a body begins after the flag has been cleared, between the
      thread's reading the flag and its taking the lock. */
  lemma OneMoreBodyCanBegin(config: SimulationConfig, first: Draw, d: Draws)
    requires ValidateSimulationConfig(config)
    ensures exists run: seq<System>, n: nat, m: nat ::
              && IsRun(run) && n <= m < |run| && run[0].config == config
              && Stopped(run[n]) && run[m].begun == run[n].begun + 1
  {
    var s0 := Start(config, first);
    var s1 := StarterStep(StarterStep(StarterStep(StarterStep(s0))));
    var s2 := s1.(stoppers := s1.stoppers + [StopWant]);
    var s3 := ThreadStep(s2, Go, d);
    var s4 := StopperStep(StopperStep(StopperStep(s3, 0), 0), 0);
    var s5 := ThreadStep(ThreadStep(s4, Go, d), Go, d);
    hide Initial, WellFormed;
    var go, stop := ThreadMoves(Go, d), StopperMoves(0);
    var r1 := Extend(Extend(Extend(Extend([s0], StarterMoves), StarterMoves), StarterMoves), StarterMoves);
    assert r1[|r1| - 1] == s1;
    var r2 := r1 + [s2];
    CallExtends(r1, s2);
    var r4 := Extend(Extend(Extend(Extend(r2, go), stop), stop), stop);
    assert r4[|r4| - 1] == s4;
    var r5 := Extend(Extend(r4, go), go);
    assert r5[|r5| - 1] == s5;
    assert Stopped(r5[|r4| - 1]) && r5[|r5| - 1].begun == r5[|r4| - 1].begun + 1;
  }

  /** A run goes on with any enabled step. */
  ghost function Extend(run: seq<System>, a: Action): (r: seq<System>)
    requires IsRun(run) && WellFormed(run[|run| - 1].sim) && Enabled(run[|run| - 1], a)
    ensures IsRun(r) && run < r && |r| == |run| + 1 && r[0] == run[0] && r[|run|] == Step(run[|run| - 1], a)
  {
    var r := run + [Step(run[|run| - 1], a)];
    assert forall n :: 0 <= n < |r| - 1 ==> Next(r[n], r[n + 1]) by { StepExtends(run, a, r); }
    r
  }

  lemma StepExtends(run: seq<System>, a: Action, r: seq<System>)
    requires IsRun(run) && WellFormed(run[|run| - 1].sim) && Enabled(run[|run| - 1], a)
    requires r == run + [Step(run[|run| - 1], a)]
    ensures forall n :: 0 <= n < |r| - 1 ==> Next(r[n], r[n + 1])
  {
    hide Step, Enabled;
  }

  lemma CallExtends(run: seq<System>, t: System)
    requires IsRun(run) && IsCall(run[|run| - 1], t)
    ensures IsRun(run + [t])
  {
    hide IsCall;
  }

  /** The caller has got past its test of the flag. */
  predicate Tested(pc: StopperPc) {
    !pc.StopWant? && !pc.StopTest?
  }

  /** Of a started simulation, a stopper past its test has seen to it that the flag is down. */
  predicate StopWorks(s: System, i: nat) {
    i < |s.stoppers| && PastStart(s.starter) && (Tested(s.stoppers[i]) ==> Stopped(s))
  }

  lemma CallKeepsStopWorking(s: System, t: System, i: nat)
    requires StopWorks(s, i) && IsCall(s, t)
    ensures StopWorks(t, i)
  {
  }

  lemma StepKeepsStopWorking(s: System, a: Action, i: nat)
    requires Inv(s) && StopWorks(s, i) && Enabled(s, a) && !Tested(s.stoppers[i])
    ensures WellFormed(s.sim) && StopWorks(Step(s, a), i)
  {
    hide DataMatches, LocksMatch, ReadersMatch, JoinsMatch, ExitMatches, PhaseEffect, BodyNext, ReaderNext, KindOf;
    ClockIsTicks(s);
  }

  lemma NextKeepsStopWorking(s: System, t: System, i: nat)
    requires Inv(s) && StopWorks(s, i) && Next(s, t)
    ensures StopWorks(t, i)
  {
    hide Inv, Enabled, Step, IsCall;
    if IsCall(s, t) {
      CallKeepsStopWorking(s, t, i);
    } else {
      var a :| Enabled(s, a) && t == Step(s, a);
      if Tested(s.stoppers[i]) {
        NextStaysStopped(s, t);
        StoppersRemain(s, a);
      } else {
        StepKeepsStopWorking(s, a, i);
      }
    }
  }

  lemma StoppersRemain(s: System, a: Action)
    requires WellFormed(s.sim) && Enabled(s, a)
    ensures |Step(s, a).stoppers| == |s.stoppers|
  {
    hide WellFormed, PhaseEffect, ThreadNext, ReaderNext;
  }

  lemma {:induction false} StopWorksOn(run: seq<System>, n: nat, m: nat, i: nat)
    requires IsRun(run) && n <= m < |run| && StopWorks(run[n], i)
    ensures StopWorks(run[m], i)
    decreases m
  {
    hide Inv, Next, StopWorks;
    if m > n {
      StopWorksOn(run, n, m - 1, i);
      RunsKeep(run, m - 1);
      assert Next(run[m - 1], run[m - 1 + 1]);
      NextKeepsStopWorking(run[m - 1], run[m], i);
    }
  }

  /** A stop stops: once somebody who called simulation_stop on a started simulation has got past
      the test, and so when the call returns, the simulation is not running, whatever it was doing
      and whoever else called; and from then on at most one more tick body begins. */
  lemma StopStops(run: seq<System>, n: nat, m: nat, i: nat)
    requires IsRun(run) && n <= m < |run| && i < |run[n].stoppers|
    requires run[n].stoppers[i].StopWant? && PastStart(run[n].starter)
    ensures i < |run[m].stoppers|
    ensures Tested(run[m].stoppers[i]) ==> Stopped(run[m])
    ensures Tested(run[m].stoppers[i]) ==>
              forall k :: m <= k < |run| ==> !run[k].running && run[k].begun <= run[m].begun + 1
  {
    StopWorksOn(run, n, m, i);
    if Tested(run[m].stoppers[i]) {
      forall k | m <= k < |run|
        ensures !run[k].running && run[k].begun <= run[m].begun + 1
      {
        AtMostOneMoreBody(run, m, k);
      }
    }
  }

  /** Left alone, the simulation runs its whole duration; stopped, it may run less. */
  lemma UnstoppedRunsItsDuration(run: seq<System>, n: nat)
    requires IsRun(run) && n < |run| && run[n].thread.Finished? && run[n].clearedAt.None?
    ensures |run[n].ticks| == run[n].config.durationSec
    ensures run[n].sim.elapsed == run[n].config.durationSec
  {
    RunsKeep(run, n);
    ClockIsTicks(run[n]);
    hide LocksMatch, DataMatches, ReadersMatch;
  }

  /** Any number of callers may stop the simulation. The thread is joined at most once, by the
      caller that found it running; when that caller returns the thread has finished. */
  lemma JoinedAtMostOnce(run: seq<System>, n: nat)
    requires IsRun(run) && n < |run|
    ensures run[n].joins <= 1
    ensures forall i, j :: 0 <= i < j < |run[n].stoppers| && run[n].stoppers[i] == StopDone(true)
                           ==> run[n].stoppers[j] != StopDone(true)
    ensures StopDone(true) in run[n].stoppers ==>
              run[n].thread.Finished? && run[n].joins == 1 && !run[n].threadCreated
  {
    RunsKeep(run, n);
    hide LocksMatch, DataMatches, ReadersMatch, ExitMatches, BodiesMatch, FlagMatches;
    var s := run[n];
    forall i, j | 0 <= i < j < |s.stoppers| && s.stoppers[i] == StopDone(true)
      ensures s.stoppers[j] != StopDone(true)
    {
      assert Won(s.stoppers[i]);
      assert Won(s.stoppers[j]) ==> s.clearer == Some(j);
    }
  }

  /** A caller whose stop has joined finds whole ticks only: the simulation rests at the boundary
      that the ticks completed so far lead to. */
  lemma JoinedLeavesABoundary(run: seq<System>, n: nat)
    requires IsRun(run) && n < |run| && StopDone(true) in run[n].stoppers
    ensures ValidateSimulationConfig(run[n].config)
    ensures run[n].sim == BoundaryAfter(run[n], |run[n].ticks|) && Boundary(run[n].sim)
  {
    JoinedAtMostOnce(run, n);
    RunsKeep(run, n);
    LastBoundary(run[n]);
    hide LocksMatch, ReadersMatch, StopMatches, IsRun, After;
    assert run[n].ticks[..|run[n].ticks|] == run[n].ticks;
  }

  /** The caller that cleared the flag never returns without joining. */
  lemma ClearerJoins(run: seq<System>, n: nat)
    requires IsRun(run) && n < |run| && run[n].clearer.Some?
    ensures run[n].clearer.value < |run[n].stoppers|
    ensures run[n].stoppers[run[n].clearer.value] != StopDone(false)
  {
    RunsKeep(run, n);
    hide LocksMatch, DataMatches, ReadersMatch;
  }

  /** A thread that finished by itself is never joined: callers of simulation_stop find the
      flag cleared already. */
  lemma FinishedAloneIsNeverJoined(run: seq<System>, n: nat, m: nat)
    requires IsRun(run) && n <= m < |run| && run[n].thread.Finished? && run[n].clearedAt.None?
    ensures run[m].joins == 0 && run[m].thread.Finished?
    ensures StopDone(true) !in run[m].stoppers
  {
    RunsKeep(run, n);
    FinishedIsStopped(run[n]);
    StoppedForGood(run, n, m);
    RunsKeep(run, m);
    JoinedAtMostOnce(run, m);
    hide LocksMatch, DataMatches, ReadersMatch, IsRun;
  }

  lemma FinishedIsStopped(s: System)
    requires FlagMatches(s) && s.thread.Finished?
    ensures Stopped(s)
  {
  }

  // ---------------------------------------------------------------- progress

  /** Everybody has returned. */
  predicate AllDone(s: System) {
    && s.starter.StartDone? && s.thread.Finished?
    && (forall i :: 0 <= i < |s.stoppers| ==> s.stoppers[i].StopDone?)
    && (forall i :: 0 <= i < |s.readers| ==> s.readers[i].StateDone? || s.readers[i].StatsDone?)
  }

  /** Whoever owns the simulation's lock can take its next step. */
  function OwnersMove(s: System): Action
    requires !s.simLock.Nobody?
  {
    match s.simLock
    case Starter => StarterMoves
    case Thread => ThreadMoves(if s.thread.Body? && s.thread.inner.Outside? && s.thread.phase.Unlocking? then Go
                               else if s.thread.Body? && (s.thread.inner.HoldPark? || s.thread.inner.HoldStat?) then Release
                               else Go, Draws(0, 0))
    case Stopper(i) => StopperMoves(i)
    case Reader(i) => ReaderMoves(i)
  }

  lemma OwnerCanMove(s: System)
    requires LocksMatch(s) && !s.simLock.Nobody?
    ensures Enabled(s, OwnersMove(s))
  {
  }

  lemma SomebodyCanMove(s: System) returns (a: Action)
    requires LocksMatch(s) && FlagMatches(s) && s.simLock.Nobody? && !AllDone(s)
    ensures Enabled(s, a)
  {
    if !s.starter.StartDone? {
      a := StarterMoves;
    } else if !s.thread.Finished? {
      a := ThreadMoves(Go, Draws(0, 0));
    } else if i :| 0 <= i < |s.stoppers| && !s.stoppers[i].StopDone? {
      a := StopperMoves(i);
    } else {
      var i :| 0 <= i < |s.readers| && !s.readers[i].StateDone? && !s.readers[i].StatsDone?;
      a := ReaderMoves(i);
    }
  }

  /** No reachable state is a deadlock: until everybody has returned somebody can step. The
      inner locks are taken only by the owner of the simulation's lock, and who joins holds
      no lock. */
  lemma NoDeadlock(run: seq<System>, n: nat)
    requires IsRun(run) && n < |run| && !AllDone(run[n])
    ensures exists a :: Enabled(run[n], a)
    ensures forall i :: 0 <= i < |run[n].stoppers| && run[n].stoppers[i].Joining? ==> run[n].simLock != Stopper(i)
  {
    RunsKeep(run, n);
    hide DataMatches, ReadersMatch, Enabled, IsRun;
    if run[n].simLock.Nobody? {
      var a := SomebodyCanMove(run[n]);
    } else {
      OwnerCanMove(run[n]);
    }
  }
}
