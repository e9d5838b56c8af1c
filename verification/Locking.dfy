/** The locks and the stop protocol of server/simulation.c, as interleaved atomic steps of one
    caller of simulation_start, the simulation thread, any number of callers of
    simulation_stop, and any number of callers of the two snapshot functions. */
module Locking {
  import opened Words
  import opened Configuration
  import opened Simulations
  import opened Invariants

  datatype Owner = Nobody | Starter | Thread | Stopper(s: nat) | Reader(r: nat)

  /** How far a tick's body has come. */
  datatype Phase = Arriving | Departing(next: nat) | Refilling | Overwriting | Advancing | Unlocking

  /** The inner lock that the body, at any time, may be without, waiting for, or holding. */
  datatype Inner = Outside | WantPark | HoldPark | WantStat | HoldStat

  datatype ThreadPc =
    | NotCreated
    | TestRunning               // about to read running, without the lock
    | TestElapsed               // about to compare elapsed_time with the duration
    | WantTick                  // at the lock of the loop body
    | Body(draws: Draws, phase: Phase, inner: Inner, asks: nat)
    | Sleeping
    | WantFinish                // after the loop, at the lock
    | Finishing                 // holding the lock, about to clear running
    | Finished

  datatype StarterPc = StartWant | StartTest | StartCreate | StartMark | StartDone

  datatype StopperPc =
    | StopWant
    | StopTest                          // holding the lock, about to test and clear running
    | StopRead(was: bool)               // holding the lock, about to read thread_created
    | StopDecide(was: bool, created: bool)
    | Joining
    | StopWantAgain
    | StopMark                          // holding the lock, about to clear thread_created
    | StopDone(joined: bool)

  /** A reader remembers how many ticks were complete when it asked. */
  datatype ReaderPc =
    | StateWant(since: nat)
    | StateSpots(since: nat)
    | StateWantPark(since: nat, total: u32, occupied: u32)
    | StateWaiting(since: nat, total: u32, occupied: u32)
    | StateTime(since: nat, total: u32, occupied: u32, waiting: u32)
    | StateRest(since: nat, total: u32, occupied: u32, waiting: u32, elapsed: u32)
    | StateDone(since: nat, at: nat, state: ParkingState)
    | StatsWant(since: nat)
    | StatsCounters(since: nat)
    | StatsAverages(since: nat, partial: Report)
    | StatsDone(since: nat, at: nat, report: Report)

  /** The shared state, everybody's program counter, and a record of the run: its complete
      ticks, the number of bodies begun, how many had begun when a stopper cleared running
      (and which stopper), and the number of joins. */
  datatype System = System(
    config: SimulationConfig, first: Draw,
    sim: SimState, running: bool, threadCreated: bool,
    simLock: Owner, parkLock: Owner, statLock: Owner,
    thread: ThreadPc, starter: StarterPc, stoppers: seq<StopperPc>, readers: seq<ReaderPc>,
    ticks: seq<Draws>, begun: nat, clearedAt: Option<nat>, clearer: Option<nat>, joins: nat)

  datatype Move = Go | AskPark | AskStat | Release

  datatype Action = ThreadMoves(move: Move, draws: Draws) | StarterMoves | StopperMoves(i: nat) | ReaderMoves(i: nat)

  // ---------------------------------------------------------------- the steps

  /** How often a phase asks for an inner lock at most: an arrival is counted, tries to park, and
      its outcome is counted; a departure frees a spot and is counted; draining is one operation
      of the lot, and each vehicle it parks is counted; the overwrite reads the queue's size. */
  function Allowance(phase: Phase, c: SimulationConfig): nat {
    match phase
    case Arriving => 3
    case Departing(_) => 2
    case Refilling => 1 + c.parkingSpots
    case Overwriting => 1
    case _ => 0
  }

  /** The effect of a phase on the simulation, and the phase that follows. */
  function PhaseEffect(sim: SimState, d: Draws, phase: Phase): (SimState, Phase)
    requires WellFormed(sim) && !phase.Unlocking?
  {
    match phase
    case Arriving => (Arrive(sim, d), Departing(0))
    case Departing(i) =>
      if i < |sim.vehicles| then (DepartOne(sim, i), Departing(i + 1)) else (sim, Refilling)
    case Refilling => (Refill(sim), Overwriting)
    case Overwriting => (Overwrite(sim), Advancing)
    case Advancing => (Advance(sim), Unlocking)
  }

  predicate ThreadEnabled(s: System, move: Move) {
    match s.thread
    case NotCreated => false
    case TestRunning => move.Go?
    case TestElapsed => move.Go?
    case WantTick => move.Go? && s.simLock.Nobody?
    case Body(_, _, Outside, asks) => move.Go? || (!move.Release? && asks > 0)
    case Body(_, _, WantPark, _) => move.Go? && s.parkLock.Nobody?
    case Body(_, _, WantStat, _) => move.Go? && s.statLock.Nobody?
    case Body(_, phase, _, _) => (move.Go? && !phase.Unlocking?) || move.Release?
    case Sleeping => move.Go?
    case WantFinish => move.Go? && s.simLock.Nobody?
    case Finishing => move.Go?
    case Finished => false
  }

  /** What a step of the thread amounts to. */
  datatype Kind = ReadFlag | ReadClock | TakeLock | AskLock(want: Inner) | TakePark | TakeStat | Drop | Work | Unlock | Wake | TakeLast | Finish

  function KindOf(pc: ThreadPc, move: Move): (kind: Kind)
    requires !pc.NotCreated? && !pc.Finished?
    ensures kind.Work? || kind.Unlock? || kind.Drop? || kind.AskLock? || kind.TakePark? || kind.TakeStat? <==> pc.Body?
    ensures kind.Work? ==> !pc.phase.Unlocking?
  {
    match pc
    case TestRunning => ReadFlag
    case TestElapsed => ReadClock
    case WantTick => TakeLock
    case Body(_, phase, inner, _) =>
      if inner.WantPark? then TakePark
      else if inner.WantStat? then TakeStat
      else if move.Release? then Drop
      else if move.AskPark? && inner.Outside? then AskLock(WantPark)
      else if move.AskStat? && inner.Outside? then AskLock(WantStat)
      else if phase.Unlocking? then Unlock
      else Work
    case Sleeping => Wake
    case WantFinish => TakeLast
    case Finishing => Finish
  }

  function BodyNext(pc: ThreadPc, kind: Kind, sim: SimState, c: SimulationConfig): (r: ThreadPc)
    requires pc.Body? && WellFormed(sim) && (kind.Work? ==> !pc.phase.Unlocking?)
    ensures r.Body? && r.draws == pc.draws
  {
    if kind.Work? then
      var next := PhaseEffect(sim, pc.draws, pc.phase).1;
      pc.(phase := next, asks := Allowance(next, c))
    else if kind.AskLock? then pc.(inner := kind.want, asks := if pc.asks > 0 then pc.asks - 1 else 0)
    else if kind.TakePark? then pc.(inner := HoldPark)
    else if kind.TakeStat? then pc.(inner := HoldStat)
    else pc.(inner := Outside)
  }

  function ThreadNext(s: System, kind: Kind, d: Draws): ThreadPc
    requires WellFormed(s.sim) && (kind.Work? ==> s.thread.Body? && !s.thread.phase.Unlocking?)
  {
    if kind.ReadFlag? then if s.running then TestElapsed else WantFinish
    else if kind.ReadClock? then if s.sim.elapsed < s.sim.config.durationSec then WantTick else WantFinish
    else if kind.TakeLock? then Body(d, Arriving, Outside, Allowance(Arriving, s.config))
    else if kind.Unlock? then Sleeping
    else if kind.Wake? then TestRunning
    else if kind.TakeLast? then Finishing
    else if kind.Finish? then Finished
    else if s.thread.Body? then BodyNext(s.thread, kind, s.sim, s.config)
    else s.thread
  }

  function ThreadStep(s: System, move: Move, d: Draws): System
    requires WellFormed(s.sim) && ThreadEnabled(s, move)
  {
    var kind := KindOf(s.thread, move);
    s.(thread := ThreadNext(s, kind, d),
       sim := if kind.Work? then PhaseEffect(s.sim, s.thread.draws, s.thread.phase).0 else s.sim,
       simLock := if kind.TakeLock? || kind.TakeLast? then Thread
                  else if kind.Unlock? || kind.Finish? then Nobody
                  else s.simLock,
       parkLock := if kind.TakePark? then Thread
                   else if kind.Drop? && s.thread.inner.HoldPark? then Nobody
                   else s.parkLock,
       statLock := if kind.TakeStat? then Thread
                   else if kind.Drop? && s.thread.inner.HoldStat? then Nobody
                   else s.statLock,
       running := s.running && !kind.Finish?,
       ticks := if kind.Unlock? then s.ticks + [s.thread.draws] else s.ticks,
       begun := s.begun + One(kind.TakeLock?))
  }

  predicate StarterEnabled(s: System) {
    match s.starter
    case StartWant => s.simLock.Nobody?
    case StartDone => false
    case _ => true
  }

  /** simulation_start; creating the thread succeeds. */
  function StarterStep(s: System): System
    requires StarterEnabled(s)
  {
    var refused := s.starter.StartTest? && s.running;
    s.(starter := match s.starter
                  case StartWant => StartTest
                  case StartTest => if s.running then StartDone else StartCreate
                  case StartCreate => StartMark
                  case StartMark => StartDone,
       simLock := if s.starter.StartWant? then Starter
                  else if refused || s.starter.StartMark? then Nobody
                  else s.simLock,
       running := s.running || s.starter.StartTest?,
       sim := if s.starter.StartTest? && !s.running then s.sim.(elapsed := 0) else s.sim,
       thread := if s.starter.StartCreate? then TestRunning else s.thread,
       threadCreated := s.threadCreated || s.starter.StartMark?)
  }

  predicate StopperEnabled(s: System, i: nat)
    requires i < |s.stoppers|
  {
    match s.stoppers[i]
    case StopWant => s.simLock.Nobody?
    case StopWantAgain => s.simLock.Nobody?
    case Joining => s.thread.Finished?
    case StopDone(_) => false
    case _ => true
  }

  /** simulation_stop. */
  function StopperStep(s: System, i: nat): System
    requires i < |s.stoppers| && StopperEnabled(s, i)
  {
    var pc := s.stoppers[i];
    var clears := pc.StopTest? && s.running;
    s.(stoppers := s.stoppers[i :=
         match pc
         case StopWant => StopTest
         case StopTest => StopRead(s.running)
         case StopRead(was) => StopDecide(was, s.threadCreated)
         case StopDecide(was, created) => if was && created then Joining else StopDone(false)
         case Joining => StopWantAgain
         case StopWantAgain => StopMark
         case StopMark => StopDone(true)],
       simLock := if pc.StopWant? || pc.StopWantAgain? then Stopper(i)
                  else if pc.StopRead? || pc.StopMark? then Nobody
                  else s.simLock,
       running := s.running && !pc.StopTest?,
       threadCreated := s.threadCreated && !pc.StopMark?,
       clearedAt := if clears then Some(s.begun) else s.clearedAt,
       clearer := if clears then Some(i) else s.clearer,
       joins := s.joins + One(pc.Joining?))
  }

  predicate ReaderEnabled(s: System, i: nat)
    requires i < |s.readers|
  {
    match s.readers[i]
    case StateWant(_) => s.simLock.Nobody?
    case StatsWant(_) => s.simLock.Nobody?
    case StateWantPark(_, _, _) => s.parkLock.Nobody?
    case StateDone(_, _, _) => false
    case StatsDone(_, _, _) => false
    case _ => true
  }

  /** simulation_get_state and simulation_get_statistics, field by field. */
  function ReaderNext(pc: ReaderPc, sim: SimState, done: nat): ReaderPc {
    match pc
    case StateWant(since) => StateSpots(since)
    case StateSpots(since) =>
      StateWantPark(since, StateSnapshot(sim).totalSpots, StateSnapshot(sim).occupiedSpots)
    case StateWantPark(since, total, occupied) => StateWaiting(since, total, occupied)
    case StateWaiting(since, total, occupied) =>
      StateTime(since, total, occupied, StateSnapshot(sim).waitingVehicles)
    case StateTime(since, total, occupied, waiting) =>
      StateRest(since, total, occupied, waiting, StateSnapshot(sim).elapsedTime)
    case StateRest(since, total, occupied, waiting, elapsed) =>
      StateDone(since, done, ParkingState(total, occupied, waiting, elapsed,
                                          StateSnapshot(sim).remainingTime, StateSnapshot(sim).mode))
    case StatsWant(since) => StatsCounters(since)
    case StatsCounters(since) => StatsAverages(since, WithoutAverages(StatsSnapshot(sim)))
    case StatsAverages(since, partial) =>
      var r := StatsSnapshot(sim);
      StatsDone(since, done, partial.(avgParkingTime := r.avgParkingTime, avgWaitTime := r.avgWaitTime,
                                      occupancyRate := r.occupancyRate))
    case _ => pc
  }

  function WithoutAverages(r: Report): Report {
    r.(avgParkingTime := 0.0, avgWaitTime := 0.0, occupancyRate := 0.0)
  }

  function ReaderStep(s: System, i: nat): (t: System)
    requires i < |s.readers| && ReaderEnabled(s, i)
    ensures |t.readers| == |s.readers|
  {
    var pc := s.readers[i];
    s.(readers := s.readers[i := ReaderNext(pc, s.sim, |s.ticks|)],
       simLock := if pc.StateWant? || pc.StatsWant? then Reader(i)
                  else if pc.StateRest? || pc.StatsAverages? then Nobody
                  else s.simLock,
       parkLock := if pc.StateWantPark? then Reader(i) else if pc.StateWaiting? then Nobody else s.parkLock)
  }

  predicate Enabled(s: System, a: Action) {
    match a
    case ThreadMoves(move, _) => ThreadEnabled(s, move)
    case StarterMoves => StarterEnabled(s)
    case StopperMoves(i) => i < |s.stoppers| && StopperEnabled(s, i)
    case ReaderMoves(i) => i < |s.readers| && ReaderEnabled(s, i)
  }

  function Step(s: System, a: Action): System
    requires WellFormed(s.sim) && Enabled(s, a)
  {
    match a
    case ThreadMoves(move, d) => ThreadStep(s, move, d)
    case StarterMoves => StarterStep(s)
    case StopperMoves(i) => StopperStep(s, i)
    case ReaderMoves(i) => ReaderStep(s, i)
  }

  // ---------------------------------------------------------------- the invariant

  predicate StarterHolds(pc: StarterPc) {
    pc.StartTest? || pc.StartCreate? || pc.StartMark?
  }

  predicate StopperHolds(pc: StopperPc) {
    pc.StopTest? || pc.StopRead? || pc.StopMark?
  }

  predicate ReaderHolds(pc: ReaderPc) {
    !pc.StateWant? && !pc.StatsWant? && !pc.StateDone? && !pc.StatsDone?
  }

  predicate ThreadHolds(pc: ThreadPc) {
    pc.Body? || pc.Finishing?
  }

  /** A lock is owned by whoever is between taking and releasing it. The inner locks are only
      ever taken by the owner of the simulation's lock. */
  ghost predicate LocksMatch(s: System) {
    && (s.simLock == Starter <==> StarterHolds(s.starter))
    && (s.simLock == Thread <==> ThreadHolds(s.thread))
    && (forall i :: 0 <= i < |s.stoppers| ==> (s.simLock == Stopper(i) <==> StopperHolds(s.stoppers[i])))
    && (forall i :: 0 <= i < |s.readers| ==> (s.simLock == Reader(i) <==> ReaderHolds(s.readers[i])))
    && (s.simLock.Stopper? ==> s.simLock.s < |s.stoppers|)
    && (s.simLock.Reader? ==> s.simLock.r < |s.readers|)
    && (s.parkLock == Thread <==> s.thread.Body? && s.thread.inner.HoldPark?)
    && (forall i :: 0 <= i < |s.readers| ==> (s.parkLock == Reader(i) <==> s.readers[i].StateWaiting?))
    && (s.parkLock.Nobody? || s.parkLock == Thread || (s.parkLock.Reader? && s.parkLock.r < |s.readers|))
    && (s.statLock == Thread <==> s.thread.Body? && s.thread.inner.HoldStat?)
    && (s.statLock.Nobody? || s.statLock == Thread)
  }

  ghost function BoundaryAfter(s: System, n: nat): SimState
    requires ValidateSimulationConfig(s.config) && n <= |s.ticks|
  {
    After(Initial(s.config, s.first), s.ticks[..n])
  }

  /** Outside a tick's body the simulation is at a boundary; inside, the rest of the body leads
      to the next one. */
  ghost predicate DataMatches(s: System) {
    && ValidateSimulationConfig(s.config) && |s.ticks| <= s.config.durationSec
    && WellFormed(s.sim)
    && var last := After(Initial(s.config, s.first), s.ticks);
       match s.thread
       case Body(d, phase, _, _) => MidTick(last, d, phase, s.sim)
       case _ => s.sim == last
  }

  predicate MidTick(last: SimState, d: Draws, phase: Phase, sim: SimState)
    requires WellFormed(last) && WellFormed(sim)
  {
    match phase
    case Arriving => sim == last
    case Departing(i) => i <= |sim.vehicles| && DepartFrom(sim, i) == DepartFrom(Arrive(last, d), 0)
    case Refilling => sim == DepartFrom(Arrive(last, d), 0)
    case Overwriting => sim == Refill(DepartFrom(Arrive(last, d), 0))
    case Advancing => sim == Settle(Arrive(last, d))
    case Unlocking => sim == Tick(last, d)
  }

  /** What a reader holds so far, or has returned, is what one boundary says. */
  ghost predicate ReaderMatches(s: System, pc: ReaderPc)
    requires ValidateSimulationConfig(s.config)
  {
    var now := StateSnapshot(s.sim);
    && pc.since <= |s.ticks|
    && match pc
       case StateWantPark(_, total, occupied) => total == now.totalSpots && occupied == now.occupiedSpots
       case StateWaiting(_, total, occupied) => total == now.totalSpots && occupied == now.occupiedSpots
       case StateTime(_, total, occupied, waiting) =>
         total == now.totalSpots && occupied == now.occupiedSpots && waiting == now.waitingVehicles
       case StateRest(_, total, occupied, waiting, elapsed) =>
         && total == now.totalSpots && occupied == now.occupiedSpots && waiting == now.waitingVehicles
         && elapsed == now.elapsedTime
       case StatsAverages(_, partial) =>
         partial == WithoutAverages(StatsSnapshot(s.sim))
       case StateDone(since, at, state) =>
         since <= at <= |s.ticks| && state == StateSnapshot(BoundaryAfter(s, at))
       case StatsDone(since, at, report) =>
         since <= at <= |s.ticks| && report == StatsSnapshot(BoundaryAfter(s, at))
       case _ => true
  }

  ghost predicate ReadersMatch(s: System)
    requires ValidateSimulationConfig(s.config)
  {
    forall i :: 0 <= i < |s.readers| ==> ReaderMatches(s, s.readers[i])
  }

  predicate PastStart(pc: StarterPc) {
    pc.StartCreate? || pc.StartMark? || pc.StartDone?
  }

  /** The stopper cleared running itself and so joins, or has joined. */
  predicate Won(pc: StopperPc) {
    || (pc.StopRead? && pc.was)
    || (pc.StopDecide? && pc.was)
    || pc.Joining? || pc.StopWantAgain? || pc.StopMark?
    || (pc.StopDone? && pc.joined)
  }

  predicate HasJoined(pc: StopperPc) {
    pc.StopWantAgain? || pc.StopMark? || (pc.StopDone? && pc.joined)
  }

  /** The life of the running flag and of the thread. */
  predicate FlagMatches(s: System) {
    && (s.running || s.clearedAt.Some? || !s.thread.NotCreated? ==> PastStart(s.starter))
    && (s.running ==> s.clearedAt.None? && !s.thread.Finished?)
    && (!s.thread.NotCreated? <==> s.starter.StartMark? || s.starter.StartDone?)
    && (s.starter.StartCreate? ==> s.running)
    && (s.thread.NotCreated? ==> s.ticks == [])
    && (s.threadCreated ==> s.starter.StartDone?)
    && (PastStart(s.starter) && !s.running ==> s.clearedAt.Some? || s.thread.Finished?)
  }

  /** The loop is left only for one of its two reasons. */
  predicate ExitMatches(s: System) {
    && (s.thread.WantFinish? || s.thread.Finishing? || s.thread.Finished? ==>
          s.clearedAt.Some? || |s.ticks| == s.config.durationSec)
  }

  /** At most one body begins once the flag has been cleared, and only with time left. */
  predicate BodiesMatch(s: System) {
    && s.begun == |s.ticks| + One(s.thread.Body?)
    && (s.thread.WantTick? || s.thread.Body? ==> |s.ticks| < s.config.durationSec)
    && (s.clearedAt.Some? ==> s.clearedAt.value <= s.begun <= s.clearedAt.value + 1)
    && (s.clearedAt.Some? && s.begun == s.clearedAt.value + 1 ==> !s.thread.TestElapsed? && !s.thread.WantTick?)
  }

  /** The body never asks more often than its phase allows. */
  predicate AsksMatch(s: System) {
    s.thread.Body? ==> s.thread.asks <= Allowance(s.thread.phase, s.config)
  }

  /** Only the stopper that cleared the flag joins. */
  ghost predicate JoinsMatch(s: System) {
    && (s.starter.StartDone? && !s.threadCreated ==> s.joins > 0)
    && (s.clearedAt.Some? <==> s.clearer.Some?)
    && (s.clearer.Some? ==> s.clearer.value < |s.stoppers| && Won(s.stoppers[s.clearer.value]))
    && (forall i :: 0 <= i < |s.stoppers| && Won(s.stoppers[i]) ==> s.clearer == Some(i))
    && (forall i :: 0 <= i < |s.stoppers| && s.stoppers[i].StopDecide? && s.stoppers[i].was ==> s.stoppers[i].created)
    && s.joins == One(s.clearer.Some? && HasJoined(s.stoppers[s.clearer.value]))
    && (s.joins > 0 ==> s.thread.Finished?)
    && (s.clearer.Some? && s.stoppers[s.clearer.value].StopDone? ==> s.starter.StartDone? && !s.threadCreated)
  }

  ghost predicate StopMatches(s: System) {
    FlagMatches(s) && ExitMatches(s) && BodiesMatch(s) && AsksMatch(s) && JoinsMatch(s)
  }

  ghost predicate Inv(s: System) {
    LocksMatch(s) && DataMatches(s) && ReadersMatch(s) && StopMatches(s)
  }

  // ---------------------------------------------------------------- every step keeps it

  lemma ThreadKeepsLocks(s: System, move: Move, d: Draws)
    requires LocksMatch(s) && WellFormed(s.sim) && ThreadEnabled(s, move)
    ensures LocksMatch(ThreadStep(s, move, d))
  {
    hide PhaseEffect, WellFormed;
  }

  lemma StarterKeepsLocks(s: System)
    requires LocksMatch(s) && StarterEnabled(s)
    requires s.starter.StartCreate? ==> s.thread.NotCreated?
    ensures LocksMatch(StarterStep(s))
  {
  }

  lemma StopperKeepsLocks(s: System, i: nat)
    requires LocksMatch(s) && i < |s.stoppers| && StopperEnabled(s, i)
    ensures LocksMatch(StopperStep(s, i))
  {
  }

  lemma ReaderKeepsLocks(s: System, i: nat)
    requires LocksMatch(s) && i < |s.readers| && ReaderEnabled(s, i)
    ensures LocksMatch(ReaderStep(s, i))
  {
    hide StateSnapshot, StatsSnapshot;
  }

  lemma PhaseKeepsMidTick(last: SimState, d: Draws, phase: Phase, sim: SimState)
    requires WellFormed(last) && WellFormed(sim) && MidTick(last, d, phase, sim) && !phase.Unlocking?
    ensures var (next, following) := PhaseEffect(sim, d, phase);
            WellFormed(next) && MidTick(last, d, following, next)
  {
    hide Arrive, DepartOne, Refill, Overwrite, Advance;
  }

  /** The boundary the run has reached, and its clock. */
  lemma LastBoundary(s: System)
    requires DataMatches(s)
    ensures Boundary(After(Initial(s.config, s.first), s.ticks))
    ensures After(Initial(s.config, s.first), s.ticks).elapsed == |s.ticks|
    ensures After(Initial(s.config, s.first), s.ticks).config == s.config
  {
    InitialBoundary(s.config, s.first);
    RunKeeps(Initial(s.config, s.first), s.ticks);
  }

  lemma CompletedTick(s: System, e: Draws)
    requires DataMatches(s)
    ensures After(Initial(s.config, s.first), s.ticks + [e]) == Tick(After(Initial(s.config, s.first), s.ticks), e)
  {
  }

  lemma ThreadKeepsData(s: System, move: Move, d: Draws)
    requires DataMatches(s) && ThreadEnabled(s, move)
    requires s.thread.Body? ==> |s.ticks| < s.config.durationSec
    ensures DataMatches(ThreadStep(s, move, d))
  {
    hide After, Tick, MidTick;
    match s.thread
    case Body(e, phase, _, _) =>
      var last := After(Initial(s.config, s.first), s.ticks);
      if !phase.Unlocking? {
        PhaseKeepsMidTick(last, e, phase, s.sim);
      } else {
        CompletedTick(s, e);
        UnlockingMeans(last, e, s.sim);
      }
    case WantTick =>
      ArrivingMeans(s.sim, d);
    case _ =>
  }

  lemma UnlockingMeans(last: SimState, d: Draws, sim: SimState)
    requires WellFormed(last) && WellFormed(sim) && MidTick(last, d, Unlocking, sim)
    ensures sim == Tick(last, d)
  {
  }

  lemma ArrivingMeans(sim: SimState, d: Draws)
    requires WellFormed(sim)
    ensures MidTick(sim, d, Arriving, sim)
  {
  }

  // ---------------------------------------------------------------- readers

  /** A reader that is not reading only remembers complete boundaries. */
  lemma IdleReaderKeeps(s: System, t: System, pc: ReaderPc)
    requires ValidateSimulationConfig(s.config) && t.config == s.config && t.first == s.first
    requires !ReaderHolds(pc) && ReaderMatches(s, pc) && s.ticks <= t.ticks
    ensures ReaderMatches(t, pc)
  {
    hide StateSnapshot, StatsSnapshot, After;
    match pc
    case StateDone(_, at, _) => assert t.ticks[..at] == s.ticks[..at];
    case StatsDone(_, at, _) => assert t.ticks[..at] == s.ticks[..at];
    case _ =>
  }

  /** Nobody else's step disturbs the readers: it either leaves the simulation alone or is
      taken while the thread or the starter has the lock. */
  lemma ReadersUndisturbed(s: System, t: System)
    requires DataMatches(s) && ReadersMatch(s) && LocksMatch(s) && t.readers == s.readers
    requires t.config == s.config && t.first == s.first && s.ticks <= t.ticks
    requires s.simLock == Thread || s.simLock == Starter || (t.sim == s.sim && t.ticks == s.ticks)
    ensures ReadersMatch(t)
  {
    hide ReaderMatches;
    forall i | 0 <= i < |t.readers|
      ensures ReaderMatches(t, t.readers[i])
    {
      if s.simLock == Thread || s.simLock == Starter {
        IdleReaderKeeps(s, t, s.readers[i]);
      } else {
        SameSimSameReader(s, t, s.readers[i]);
      }
    }
  }

  lemma SameSimSameReader(s: System, t: System, pc: ReaderPc)
    requires ValidateSimulationConfig(s.config) && t.config == s.config && t.first == s.first
    requires t.sim == s.sim && t.ticks == s.ticks && ReaderMatches(s, pc)
    ensures ReaderMatches(t, pc)
  {
    hide StateSnapshot, StatsSnapshot, After;
  }

  /** A reader's step: whoever reads has the lock, so the thread is outside its body and the
      simulation is at the boundary last reached. */
  lemma ReaderKeepsReaders(s: System, i: nat)
    requires DataMatches(s) && ReadersMatch(s) && LocksMatch(s) && i < |s.readers| && ReaderEnabled(s, i)
    ensures ReadersMatch(ReaderStep(s, i))
  {
    var t := ReaderStep(s, i);
    ReaderAdvances(s, i);
    hide ReaderMatches;
    forall j | 0 <= j < |t.readers|
      ensures ReaderMatches(t, t.readers[j])
    {
      if j != i {
        SameSimSameReader(s, t, s.readers[j]);
      }
    }
  }

  lemma ReaderAdvances(s: System, i: nat)
    requires DataMatches(s) && LocksMatch(s) && i < |s.readers| && ReaderEnabled(s, i)
    requires ReaderMatches(s, s.readers[i])
    ensures ReaderMatches(ReaderStep(s, i), ReaderStep(s, i).readers[i])
    ensures ReaderStep(s, i).sim == s.sim && ReaderStep(s, i).ticks == s.ticks
    ensures ReaderStep(s, i).config == s.config && ReaderStep(s, i).first == s.first
    ensures |ReaderStep(s, i).readers| == |s.readers|
    ensures forall j :: 0 <= j < |s.readers| && j != i ==> ReaderStep(s, i).readers[j] == s.readers[j]
  {
    hide StateSnapshot, StatsSnapshot, After, MidTick;
    assert s.ticks[..|s.ticks|] == s.ticks;
  }

  // ---------------------------------------------------------------- the stop protocol

  lemma ThreadKeepsStop(s: System, move: Move, d: Draws)
    requires Inv(s) && ThreadEnabled(s, move)
    ensures StopMatches(ThreadStep(s, move, d))
  {
    ThreadKeepsFlag(s, move, d);
    ThreadKeepsExit(s, move, d);
    ThreadKeepsBodies(s, move, d);
    ThreadKeepsAsks(s, move, d);
    hide LocksMatch, ReadersMatch, DataMatches, PhaseEffect, BodyNext, FlagMatches, ExitMatches, BodiesMatch, AsksMatch, KindOf;
  }

  lemma ThreadKeepsFlag(s: System, move: Move, d: Draws)
    requires WellFormed(s.sim) && FlagMatches(s) && ThreadEnabled(s, move)
    ensures FlagMatches(ThreadStep(s, move, d))
  {
    hide WellFormed, PhaseEffect, BodyNext;
  }

  lemma ThreadKeepsExit(s: System, move: Move, d: Draws)
    requires DataMatches(s) && FlagMatches(s) && ExitMatches(s) && ThreadEnabled(s, move)
    ensures ExitMatches(ThreadStep(s, move, d))
  {
    hide DataMatches, WellFormed, BodyNext, PhaseEffect, Allowance;
    ClockIsTicks(s);
    if s.thread.Body? {
      BodyStaysBody(s, move, d);
    }
  }

  lemma ThreadKeepsBodies(s: System, move: Move, d: Draws)
    requires DataMatches(s) && FlagMatches(s) && BodiesMatch(s) && ThreadEnabled(s, move)
    ensures BodiesMatch(ThreadStep(s, move, d))
  {
    hide DataMatches, WellFormed, BodyNext, PhaseEffect, Allowance;
    ClockIsTicks(s);
    if s.thread.Body? {
      BodyStaysBody(s, move, d);
    }
  }

  /** Inside the body nothing but the end of the body matters to the other predicates. */
  lemma BodyStaysBody(s: System, move: Move, d: Draws)
    requires WellFormed(s.sim) && ThreadEnabled(s, move) && s.thread.Body?
    ensures var next := ThreadNext(s, KindOf(s.thread, move), d);
            if KindOf(s.thread, move).Unlock? then next.Sleeping? else next.Body? && next.draws == s.thread.draws
  {
    hide WellFormed, PhaseEffect, Allowance;
  }

  lemma ThreadKeepsAsks(s: System, move: Move, d: Draws)
    requires WellFormed(s.sim) && AsksMatch(s) && ThreadEnabled(s, move)
    ensures AsksMatch(ThreadStep(s, move, d))
  {
    hide WellFormed, PhaseEffect, Allowance;
  }

  lemma ClockIsTicks(s: System)
    requires DataMatches(s)
    ensures WellFormed(s.sim) && |s.ticks| <= s.config.durationSec
    ensures !s.thread.Body? ==> s.sim.elapsed == |s.ticks| && s.sim.config == s.config
  {
    LastBoundary(s);
  }

  lemma StarterKeepsStop(s: System)
    requires Inv(s) && StarterEnabled(s)
    ensures StopMatches(StarterStep(s))
  {
    hide DataMatches, ReadersMatch;
  }

  lemma StopperKeepsStop(s: System, i: nat)
    requires Inv(s) && i < |s.stoppers| && StopperEnabled(s, i)
    ensures StopMatches(StopperStep(s, i))
  {
    hide DataMatches, ReadersMatch;
  }

  lemma ReaderKeepsStop(s: System, i: nat)
    requires StopMatches(s) && i < |s.readers| && ReaderEnabled(s, i)
    ensures StopMatches(ReaderStep(s, i))
  {
    hide StateSnapshot, StatsSnapshot;
  }

  // ---------------------------------------------------------------- all together

  lemma StarterKeepsData(s: System)
    requires DataMatches(s) && StopMatches(s) && StarterEnabled(s)
    ensures DataMatches(StarterStep(s))
  {
    LastBoundary(s);
    hide After, MidTick;
  }

  lemma StepKeeps(s: System, a: Action)
    requires Inv(s) && Enabled(s, a)
    ensures WellFormed(s.sim) && Inv(Step(s, a))
  {
    hide LocksMatch, StopMatches, ReaderMatches, StarterStep, ThreadStep, StopperStep, ReaderStep;
    match a
    case ThreadMoves(move, d) => ThreadKeeps(s, move, d);
    case StarterMoves => StarterKeeps(s);
    case StopperMoves(i) => StopperKeeps(s, i);
    case ReaderMoves(i) => ReaderKeeps(s, i);
  }

  lemma ThreadKeeps(s: System, move: Move, d: Draws)
    requires Inv(s) && ThreadEnabled(s, move)
    ensures WellFormed(s.sim) && Inv(ThreadStep(s, move, d))
  {
    ThreadKeepsLocks(s, move, d);
    ThreadKeepsData(s, move, d);
    ThreadKeepsStop(s, move, d);
    hide After, MidTick, PhaseEffect, ReadersMatch, StopMatches;
    ReadersUndisturbed(s, ThreadStep(s, move, d));
  }

  lemma StarterKeeps(s: System)
    requires Inv(s) && StarterEnabled(s)
    ensures Inv(StarterStep(s))
  {
    StarterKeepsLocks(s);
    StarterKeepsData(s);
    StarterKeepsStop(s);
    hide After, MidTick, ReadersMatch, StopMatches;
    ReadersUndisturbed(s, StarterStep(s));
  }

  lemma StopperKeeps(s: System, i: nat)
    requires Inv(s) && i < |s.stoppers| && StopperEnabled(s, i)
    ensures Inv(StopperStep(s, i))
  {
    StopperKeepsLocks(s, i);
    StopperKeepsStop(s, i);
    hide After, MidTick, ReadersMatch, StopMatches, LocksMatch;
    ReadersUndisturbed(s, StopperStep(s, i));
  }

  lemma ReaderKeeps(s: System, i: nat)
    requires Inv(s) && i < |s.readers| && ReaderEnabled(s, i)
    ensures Inv(ReaderStep(s, i))
  {
    ReaderKeepsLocks(s, i);
    ReaderKeepsStop(s, i);
    ReaderKeepsReaders(s, i);
    hide After, MidTick, ReadersMatch, StopMatches, LocksMatch, StateSnapshot, StatsSnapshot;
  }

  // ---------------------------------------------------------------- runs

  /** The simulation is created, nobody but the caller of simulation_start is there yet. */
  function Start(config: SimulationConfig, first: Draw): System
    requires ValidateSimulationConfig(config)
  {
    System(config, first, Initial(config, first), false, false, Nobody, Nobody, Nobody,
           NotCreated, StartWant, [], [], [], 0, None, None, 0)
  }

  /** Calls of the other functions may come at any time; a reader remembers the ticks complete
      when it calls. */
  predicate IsCall(s: System, t: System) {
    && (t == s.(readers := s.readers + [StateWant(|s.ticks|)])
        || t == s.(readers := s.readers + [StatsWant(|s.ticks|)])
        || t == s.(stoppers := s.stoppers + [StopWant]))
  }

  ghost predicate Next(s: System, t: System) {
    IsCall(s, t) || (WellFormed(s.sim) && exists a :: Enabled(s, a) && t == Step(s, a))
  }

  /** A sequence of states that starts with nobody calling and goes on step by step. */
  ghost predicate IsRun(run: seq<System>) {
    && run != []
    && ValidateSimulationConfig(run[0].config)
    && run[0] == Start(run[0].config, run[0].first)
    && forall n :: 0 <= n < |run| - 1 ==> Next(run[n], run[n + 1])
  }

  lemma StartKeeps(config: SimulationConfig, first: Draw)
    requires ValidateSimulationConfig(config)
    ensures Inv(Start(config, first))
  {
  }

  lemma CallKeeps(s: System, t: System)
    requires Inv(s) && IsCall(s, t)
    ensures Inv(t)
  {
    CallKeepsLocks(s, t);
    CallKeepsData(s, t);
    CallKeepsReaders(s, t);
    CallKeepsJoins(s, t);
    CallKeepsFlags(s, t);
    hide IsCall, LocksMatch, DataMatches, ReadersMatch, JoinsMatch, FlagMatches, ExitMatches, BodiesMatch, AsksMatch;
  }

  lemma CallKeepsLocks(s: System, t: System)
    requires LocksMatch(s) && IsCall(s, t)
    ensures LocksMatch(t)
  {
  }

  lemma CallKeepsData(s: System, t: System)
    requires DataMatches(s) && IsCall(s, t)
    ensures DataMatches(t)
  {
    hide WellFormed, After, MidTick;
  }

  lemma CallKeepsFlags(s: System, t: System)
    requires FlagMatches(s) && ExitMatches(s) && BodiesMatch(s) && AsksMatch(s) && IsCall(s, t)
    ensures FlagMatches(t) && ExitMatches(t) && BodiesMatch(t) && AsksMatch(t)
  {
  }

  lemma CallKeepsReaders(s: System, t: System)
    requires ValidateSimulationConfig(s.config) && ReadersMatch(s) && IsCall(s, t)
    ensures ReadersMatch(t)
  {
    hide ReaderMatches;
    forall i | 0 <= i < |t.readers|
      ensures ReaderMatches(t, t.readers[i])
    {
      if i < |s.readers| {
        SameSimSameReader(s, t, s.readers[i]);
      } else {
        NewReaderMatches(t, t.readers[i]);
      }
    }
  }

  lemma NewReaderMatches(s: System, pc: ReaderPc)
    requires ValidateSimulationConfig(s.config) && (pc.StateWant? || pc.StatsWant?) && pc.since <= |s.ticks|
    ensures ReaderMatches(s, pc)
  {
  }

  lemma CallKeepsJoins(s: System, t: System)
    requires JoinsMatch(s) && IsCall(s, t)
    ensures JoinsMatch(t)
  {
  }

  lemma StepKeepsConfig(s: System, a: Action)
    requires WellFormed(s.sim) && Enabled(s, a)
    ensures Step(s, a).config == s.config && Step(s, a).first == s.first
  {
    hide WellFormed, PhaseEffect, ThreadNext, ReaderNext;
  }

  lemma NextKeeps(s: System, t: System)
    requires Inv(s) && Next(s, t)
    ensures Inv(t) && t.config == s.config && t.first == s.first
  {
    hide Inv, Step, Enabled;
    if IsCall(s, t) {
      CallKeeps(s, t);
    } else {
      var a :| Enabled(s, a) && t == Step(s, a);
      StepKeeps(s, a);
      StepKeepsConfig(s, a);
    }
  }

  /** Every state of every run satisfies the invariant. */
  lemma {:induction false} RunsKeep(run: seq<System>, n: nat)
    requires IsRun(run) && n < |run|
    ensures Inv(run[n]) && run[n].config == run[0].config && run[n].first == run[0].first
    decreases n
  {
    hide Inv, Next;
    if n == 0 {
      StartKeeps(run[0].config, run[0].first);
    } else {
      RunsKeep(run, n - 1);
      assert Next(run[n - 1], run[n - 1 + 1]);
      NextKeeps(run[n - 1], run[n]);
    }
  }
}
