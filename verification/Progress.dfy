/** The callers and the thread all come to an end. Unless somebody calls again, every step brings
    the end nearer, so a run without new calls has a bounded number of steps; and until everybody
    has returned a step is possible. */
module Progress {
  import opened Configuration
  import opened Simulations
  import opened Invariants
  import opened Locking
  import opened Interleavings

  /** How far the end is: ticks still to complete, then the thread's stage, then the departures
      still to be examined, then the inner locks the phase may still ask for, then what everybody
      else still has to do. */
  datatype Rank = Rank(ticksLeft: int, stage: nat, left: int, asks: nat, others: nat)

  predicate Nearer(r: Rank, than: Rank) {
    || r.ticksLeft < than.ticksLeft
    || (r.ticksLeft == than.ticksLeft && r.stage < than.stage)
    || (r.ticksLeft == than.ticksLeft && r.stage == than.stage && r.left < than.left)
    || (r.ticksLeft == than.ticksLeft && r.stage == than.stage && r.left == than.left && r.asks < than.asks)
    || (r.ticksLeft == than.ticksLeft && r.stage == than.stage && r.left == than.left && r.asks == than.asks
        && r.others < than.others)
  }

  function Stage(pc: ThreadPc): nat {
    match pc
    case NotCreated => 13
    case Sleeping => 12
    case TestRunning => 11
    case TestElapsed => 10
    case WantTick => 9
    case Body(_, phase, _, _) =>
      (match phase
       case Arriving => 8
       case Departing(_) => 7
       case Refilling => 6
       case Overwriting => 5
       case Advancing => 4
       case Unlocking => 3)
    case WantFinish => 2
    case Finishing => 1
    case Finished => 0
  }

  function Left(pc: ThreadPc, vehicles: nat): int {
    if pc.Body? && pc.phase.Departing? then vehicles - pc.phase.next else 0
  }

  function AsksLeft(pc: ThreadPc): nat {
    if pc.Body? then pc.asks else 0
  }

  function InnerSteps(pc: ThreadPc): nat {
    if !pc.Body? || pc.inner.Outside? then 0 else if pc.inner.WantPark? || pc.inner.WantStat? then 2 else 1
  }

  function StarterSteps(pc: StarterPc): nat {
    match pc
    case StartWant => 4
    case StartTest => 3
    case StartCreate => 2
    case StartMark => 1
    case StartDone => 0
  }

  function StopperSteps(pc: StopperPc): nat {
    match pc
    case StopWant => 7
    case StopTest => 6
    case StopRead(_) => 5
    case StopDecide(_, _) => 4
    case Joining => 3
    case StopWantAgain => 2
    case StopMark => 1
    case StopDone(_) => 0
  }

  function ReaderSteps(pc: ReaderPc): nat {
    match pc
    case StateWant(_) => 6
    case StateSpots(_) => 5
    case StateWantPark(_, _, _) => 4
    case StateWaiting(_, _, _) => 3
    case StateTime(_, _, _, _) => 2
    case StateRest(_, _, _, _, _) => 1
    case StatsWant(_) => 3
    case StatsCounters(_) => 2
    case StatsAverages(_, _) => 1
    case _ => 0
  }

  function StoppersSteps(pcs: seq<StopperPc>): nat {
    if pcs == [] then 0 else StopperSteps(pcs[0]) + StoppersSteps(pcs[1..])
  }

  function ReadersSteps(pcs: seq<ReaderPc>): nat {
    if pcs == [] then 0 else ReaderSteps(pcs[0]) + ReadersSteps(pcs[1..])
  }

  function RankOf(s: System): Rank {
    Rank(s.config.durationSec - |s.ticks|, Stage(s.thread), Left(s.thread, |s.sim.vehicles|), AsksLeft(s.thread),
         InnerSteps(s.thread) + StarterSteps(s.starter) + StoppersSteps(s.stoppers) + ReadersSteps(s.readers))
  }

  lemma {:induction false} StopperUpdate(pcs: seq<StopperPc>, i: nat, pc: StopperPc)
    requires i < |pcs|
    ensures StoppersSteps(pcs[i := pc]) == StoppersSteps(pcs) - StopperSteps(pcs[i]) + StopperSteps(pc)
  {
    if i > 0 {
      StopperUpdate(pcs[1..], i - 1, pc);
      assert pcs[i := pc][1..] == pcs[1..][i - 1 := pc];
    } else {
      assert pcs[i := pc][1..] == pcs[1..];
    }
  }

  lemma {:induction false} ReaderUpdate(pcs: seq<ReaderPc>, i: nat, pc: ReaderPc)
    requires i < |pcs|
    ensures ReadersSteps(pcs[i := pc]) == ReadersSteps(pcs) - ReaderSteps(pcs[i]) + ReaderSteps(pc)
  {
    hide ReaderSteps;
    if i > 0 {
      ReaderUpdate(pcs[1..], i - 1, pc);
      assert pcs[i := pc][1..] == pcs[1..][i - 1 := pc];
    } else {
      assert pcs[i := pc][1..] == pcs[1..];
    }
  }

  lemma ThreadDescends(s: System, move: Move, d: Draws)
    requires WellFormed(s.sim) && ThreadEnabled(s, move)
    ensures Nearer(RankOf(ThreadStep(s, move, d)), RankOf(s))
  {
    hide WellFormed, Arrive, DepartOne, Refill, Overwrite, Advance, StoppersSteps, ReadersSteps;
  }

  lemma StarterDescends(s: System)
    requires StarterEnabled(s) && (s.starter.StartCreate? ==> s.thread.NotCreated?)
    ensures Nearer(RankOf(StarterStep(s)), RankOf(s))
  {
    hide StoppersSteps, ReadersSteps;
  }

  lemma StopperDescends(s: System, i: nat)
    requires i < |s.stoppers| && StopperEnabled(s, i)
    ensures Nearer(RankOf(StopperStep(s, i)), RankOf(s))
  {
    StopperUpdate(s.stoppers, i, StopperStep(s, i).stoppers[i]);
    hide StoppersSteps, ReadersSteps, Stage, InnerSteps, StarterSteps;
  }

  lemma ReaderDescends(s: System, i: nat)
    requires i < |s.readers| && ReaderEnabled(s, i)
    ensures Nearer(RankOf(ReaderStep(s, i)), RankOf(s))
  {
    ReaderUpdate(s.readers, i, ReaderStep(s, i).readers[i]);
    hide StoppersSteps, ReadersSteps, Stage, InnerSteps, StarterSteps, StateSnapshot, StatsSnapshot;
  }

  /** Every step brings the end nearer. */
  lemma StepDescends(s: System, a: Action)
    requires Inv(s) && Enabled(s, a)
    ensures WellFormed(s.sim) && Nearer(RankOf(Step(s, a)), RankOf(s))
  {
    ClockIsTicks(s);
    hide RankOf, Nearer, ThreadStep, StarterStep, StopperStep, ReaderStep;
    match a
    case ThreadMoves(move, d) => ThreadDescends(s, move, d);
    case StarterMoves => StarterDescends(s);
    case StopperMoves(i) => StopperDescends(s, i);
    case ReaderMoves(i) => ReaderDescends(s, i);
  }

  // ---------------------------------------------------------------- counting the steps

  /** The most that everybody else can still have to do. */
  function Most(s: System): nat {
    6 + 7 * |s.stoppers| + 6 * |s.readers|
  }

  lemma {:induction false} StoppersBound(pcs: seq<StopperPc>)
    ensures StoppersSteps(pcs) <= 7 * |pcs|
  {
    if pcs != [] {
      StoppersBound(pcs[1..]);
    }
  }

  lemma {:induction false} ReadersBound(pcs: seq<ReaderPc>)
    ensures ReadersSteps(pcs) <= 6 * |pcs|
  {
    hide ReaderSteps;
    if pcs != [] {
      SixAtMost(pcs[0]);
      ReadersBound(pcs[1..]);
    }
  }

  lemma SixAtMost(pc: ReaderPc)
    ensures ReaderSteps(pc) <= 6
  {
  }

  predicate Bounded(r: Rank, most: nat) {
    0 <= r.ticksLeft && r.stage <= 13 && 0 <= r.left <= MAX_SIM_VEHICLES && r.asks <= 1 + MAX_PARKING_SPOTS && r.others <= most
  }

  lemma ArrivalsAreCapped(s: SimState, d: Draws)
    requires Boundary(s) && s.elapsed < s.config.durationSec
    ensures WellFormed(s) && |Arrive(s, d).vehicles| <= MAX_SIM_VEHICLES
  {
    ArriveKeeps(s, d);
  }

  lemma ScanIsBounded(s: System)
    requires DataMatches(s) && BodiesMatch(s)
    ensures 0 <= Left(s.thread, |s.sim.vehicles|) <= MAX_SIM_VEHICLES
  {
    hide After, Initial, Arrive, Tick, Settle, Refill, DepartFrom, Boundary;
    if s.thread.Body? && s.thread.phase.Departing? {
      LastBoundary(s);
      ArrivalsAreCapped(After(Initial(s.config, s.first), s.ticks), s.thread.draws);
    }
  }

  lemma AsksAreBounded(s: System)
    requires DataMatches(s) && AsksMatch(s)
    ensures AsksLeft(s.thread) <= 1 + MAX_PARKING_SPOTS && |s.ticks| <= s.config.durationSec
  {
    hide After, MidTick, WellFormed;
  }

  lemma RankIsBounded(s: System)
    requires Inv(s)
    ensures Bounded(RankOf(s), Most(s))
  {
    hide LocksMatch, DataMatches, ReadersMatch, FlagMatches, ExitMatches, BodiesMatch, AsksMatch, JoinsMatch;
    hide StoppersSteps, ReadersSteps, Left, AsksLeft;
    ScanIsBounded(s);
    AsksAreBounded(s);
    StoppersBound(s.stoppers);
    ReadersBound(s.readers);
  }

  /** The rank of the thread as one number. */
  function Work(r: Rank): int {
    ((r.ticksLeft * 14 + r.stage) * (MAX_SIM_VEHICLES + 1) + r.left) * (MAX_PARKING_SPOTS + 2) + r.asks
  }

  /** How many steps can be taken at most, if nobody calls. */
  function StepsLeft(s: System): int {
    Work(RankOf(s)) * (Most(s) + 1) + RankOf(s).others
  }

  lemma WorkDescends(r: Rank, than: Rank, most: nat)
    requires Bounded(r, most) && Bounded(than, most) && Nearer(r, than)
    ensures 0 <= Work(r)
    ensures Work(r) < Work(than) || (Work(r) == Work(than) && r.others < than.others)
  {
  }

  lemma FlattenDescends(work: int, others: nat, than: int, thanOthers: nat, most: nat)
    requires 0 <= work && others <= most
    requires work < than || (work == than && others < thanOthers)
    ensures 0 <= work * (most + 1) + others < than * (most + 1) + thanOthers
  {
    if work < than {
      assert (work + 1) * (most + 1) <= than * (most + 1);
      assert (work + 1) * (most + 1) == work * (most + 1) + (most + 1);
    }
  }

  /** A step that is not a call. */
  ghost predicate IsStep(s: System, t: System) {
    WellFormed(s.sim) && exists a :: Enabled(s, a) && t == Step(s, a)
  }

  lemma StepCounts(s: System, t: System)
    requires Inv(s) && Inv(t) && IsStep(s, t)
    ensures 0 <= StepsLeft(t) < StepsLeft(s)
  {
    hide Inv, RankOf, Step, Enabled, Nearer, Bounded, Work, Most;
    var a :| Enabled(s, a) && t == Step(s, a);
    StepDescends(s, a);
    RankIsBounded(s);
    RankIsBounded(t);
    SameCallers(s, a);
    WorkDescends(RankOf(t), RankOf(s), Most(s));
    BoundedOthers(RankOf(t), Most(s));
    FlattenDescends(Work(RankOf(t)), RankOf(t).others, Work(RankOf(s)), RankOf(s).others, Most(s));
  }

  lemma BoundedOthers(r: Rank, most: nat)
    requires Bounded(r, most)
    ensures r.others <= most
  {
  }

  lemma SameCallers(s: System, a: Action)
    requires WellFormed(s.sim) && Enabled(s, a)
    ensures Most(Step(s, a)) == Most(s)
  {
    hide WellFormed, PhaseEffect, ThreadNext, ReaderNext;
  }

  /** Nobody calls between two states of a run. */
  ghost predicate NoCalls(run: seq<System>, n: nat, m: nat) {
    n <= m < |run| && forall k :: n <= k < m ==> IsStep(run[k], run[k + 1])
  }

  /** Every run without new calls ends: the number of its steps is bounded by a number that can be
      read off the state it starts from. */
  lemma {:induction false} EveryRunEnds(run: seq<System>, n: nat, m: nat)
    requires IsRun(run) && NoCalls(run, n, m)
    ensures m - n <= StepsLeft(run[n]) - StepsLeft(run[m])
    ensures 0 <= StepsLeft(run[m])
    decreases m
  {
    hide Inv, IsStep, StepsLeft;
    RunsKeep(run, m);
    if n < m {
      EveryRunEnds(run, n, m - 1);
      RunsKeep(run, m - 1);
      assert IsStep(run[m - 1], run[m - 1 + 1]);
      StepCounts(run[m - 1], run[m]);
    } else {
      NothingNegative(run[m]);
    }
  }

  lemma NothingNegative(s: System)
    requires Inv(s)
    ensures 0 <= StepsLeft(s)
  {
    hide Inv, RankOf, Work, Bounded, Most;
    RankIsBounded(s);
    WorkIsPositive(RankOf(s), Most(s));
    PositiveProduct(Work(RankOf(s)), Most(s) + 1);
  }

  lemma WorkIsPositive(r: Rank, most: nat)
    requires Bounded(r, most)
    ensures 0 <= Work(r)
  {
  }

  lemma PositiveProduct(a: int, b: int)
    requires 0 <= a && 0 <= b
    ensures 0 <= a * b
  {
  }

  /** And where it cannot go on everybody has returned: no stopper is left joining for ever, and
      no reader waiting. */
  lemma EverybodyReturns(run: seq<System>, n: nat, m: nat)
    requires IsRun(run) && NoCalls(run, n, m) && !(exists a :: Enabled(run[m], a))
    ensures AllDone(run[m]) && m - n <= StepsLeft(run[n])
  {
    EveryRunEnds(run, n, m);
    hide IsRun, AllDone, Enabled, StepsLeft;
    if !AllDone(run[m]) {
      NoDeadlock(run, m);
    }
  }

  // ---------------------------------------------------------------- and there is such a run

  /** Until everybody has returned there is a step that brings the end nearer. */
  lemma StepForward(s: System) returns (a: Action)
    requires Inv(s) && !AllDone(s)
    ensures Enabled(s, a)
  {
    hide DataMatches, ReadersMatch, Enabled, ExitMatches, BodiesMatch, JoinsMatch;
    if s.simLock.Nobody? {
      a := SomebodyCanMove(s);
      LockedBody(s);
    } else {
      a := OwnersMove(s);
      OwnerCanMove(s);
    }
  }

  /** Nobody is inside the body while the lock is free. */
  lemma LockedBody(s: System)
    requires LocksMatch(s) && s.simLock.Nobody?
    ensures !s.thread.Body?
  {
  }

  function LastRank(run: seq<System>): Rank
    requires run != []
  {
    RankOf(run[|run| - 1])
  }

  lemma OneStepNearer(run: seq<System>) returns (next: seq<System>)
    requires IsRun(run) && !AllDone(run[|run| - 1])
    ensures IsRun(next) && run <= next && Nearer(LastRank(next), LastRank(run))
  {
    var s := run[|run| - 1];
    RunsKeep(run, |run| - 1);
    hide Inv, IsRun, RankOf, AllDone, Enabled, Step, Nearer;
    var a := StepForward(s);
    StepDescends(s, a);
    next := Extend(run, a);
  }

  lemma LastRankIsBounded(run: seq<System>)
    requires IsRun(run)
    ensures LastRank(run).ticksLeft >= 0 && LastRank(run).left >= 0
  {
    RunsKeep(run, |run| - 1);
    RankIsBounded(run[|run| - 1]);
    hide Inv, IsRun, RankOf, Most;
  }

  lemma {:induction false} Completion(run: seq<System>) returns (longer: seq<System>)
    requires IsRun(run)
    ensures IsRun(longer) && run <= longer && AllDone(longer[|longer| - 1])
    decreases LastRank(run).ticksLeft, LastRank(run).stage, LastRank(run).left, LastRank(run).asks,
              LastRank(run).others
  {
    hide AllDone, LastRank;
    LastRankIsBounded(run);
    if AllDone(run[|run| - 1]) {
      longer := run;
    } else {
      var next := OneStepNearer(run);
      LastRankIsBounded(next);
      longer := Completion(next);
    }
  }

  /** From every reachable state all callers can return and the thread can finish. */
  lemma EverybodyCanReturn(run: seq<System>, n: nat)
    requires IsRun(run) && n < |run|
    ensures exists longer: seq<System> ::
              IsRun(longer) && run[..n + 1] <= longer && AllDone(longer[|longer| - 1])
  {
    var longer := Completion(run[..n + 1]);
  }
}
