/** What each program does with any stream whatever, honest or not, in numbers. */
module AnyPeer {
  import opened Words
  import opened Configuration
  import opened Simulations
  import opened Codec
  import opened Layout
  import opened Network
  import opened Handlers

  // ---------------------------------------------------------------- the request loop

  /** The stream has a j-th header of eight bytes, and it is not a farewell. */
  predicate RequestAt(b: seq<byte>, j: nat) {
    8 * j + 8 <= |b| && Number(b, 8 * j) != 13
  }

  /** The answer to a header of the given type. */
  function AnswerInNumbers(kind: int, snap: Snapshot, wording: Wording): Frame {
    if kind == 7 then
      if snap.state.Some? then StateUpdate(snap.state.value) else Error(6, wording.noState)
    else if kind == 9 then
      if snap.stats.Some? then StatsUpdate(snap.stats.value) else Error(6, wording.noStatistics)
    else Error(6, wording.unknown)
  }

  lemma RequestShift(b: seq<byte>, j: nat)
    requires |b| >= 8
    ensures RequestAt(b[8..], j) <==> RequestAt(b, j + 1)
    ensures RequestAt(b[8..], j) ==> Number(b[8..], 8 * j) == Number(b, 8 * (j + 1))
  {
  }

  /** Whatever the client sends, each header up to the first farewell or the end is answered, by its
      type alone. */
  lemma {:induction false} EveryHeaderIsAnswered(b: seq<byte>, w: World, n: nat, i: nat)
    ensures i < |Replies(b, w, n)| <==> forall j :: 0 <= j <= i ==> RequestAt(b, j)
    ensures i < |Replies(b, w, n)| ==>
              8 * i + 8 <= |b|
              && Replies(b, w, n)[i] == AnswerInNumbers(Number(b, 8 * i), w.snapshots(n + i), w.wording)
    decreases |b|
  {
    hide Get32, Number, StateAnswer, StatisticsAnswer, AnswerInNumbers, RequestAt;
    RepliesUnfold(b, w, n);
    FirstRequest(b, w, n);
    if RequestAt(b, 0) && i > 0 {
      var tail := b[8..];
      EveryHeaderIsAnswered(tail, w, n + 1, i - 1);
      forall j | 0 <= j <= i - 1
        ensures RequestAt(tail, j) <==> RequestAt(b, j + 1)
        ensures RequestAt(tail, j) ==> 8 * j + 8 <= |tail| && Number(tail, 8 * j) == Number(b, 8 * (j + 1))
      {
        RequestInside(b, j);
      }
      Later(b, i);
      if i - 1 < |Replies(tail, w, n + 1)| {
        assert RequestAt(tail, i - 1);
      }
    }
  }

  lemma RequestInside(b: seq<byte>, j: nat)
    requires RequestAt(b, 0)
    ensures |b| >= 8 && (RequestAt(b[8..], j) <==> RequestAt(b, j + 1))
    ensures RequestAt(b[8..], j) ==> 8 * j + 8 <= |b[8..]| && Number(b[8..], 8 * j) == Number(b, 8 * (j + 1))
  {
    RequestShift(b, j);
  }

  lemma Later(b: seq<byte>, i: nat)
    requires i > 0 && RequestAt(b, 0)
    ensures |b| >= 8
    ensures (forall j :: 0 <= j <= i ==> RequestAt(b, j)) <==> (forall j :: 0 <= j <= i - 1 ==> RequestAt(b[8..], j))
  {
    forall j | 0 <= j <= i - 1
      ensures RequestAt(b[8..], j) <==> RequestAt(b, j + 1)
    {
      RequestShift(b, j);
    }
    hide Number;
    if forall j :: 0 <= j <= i - 1 ==> RequestAt(b[8..], j) {
      forall j | 0 <= j <= i
        ensures RequestAt(b, j)
      {
        if j > 0 {
          RequestShift(b, j - 1);
        }
      }
    }
  }

  lemma FirstRequest(b: seq<byte>, w: World, n: nat)
    ensures Over(b) <==> !RequestAt(b, 0)
    ensures RequestAt(b, 0) ==> |b| >= 8 && AnswerTo(Get32(b, 0), w, n) == AnswerInNumbers(Number(b, 0), w.snapshots(n), w.wording)
  {
    if |b| >= 8 {
      Get32IsNumber(b, 0);
    }
  }

  // ---------------------------------------------------------------- the first message

  /** The configuration spelled by the 28 bytes after a header. */
  function ConfigInNumbers(b: seq<byte>): SimulationConfig
    requires |b| >= 36
  {
    SimulationConfig(Number(b, 8), Number(b, 12), Number(b, 16), Number(b, 20), Number(b, 24), Number(b, 28), Number(b, 32))
  }

  lemma ConfigIsSpelled(b: seq<byte>)
    requires |b| >= 36
    ensures Parse(MSG_CREATE_SIM, b[8..][..CONFIG_SIZE]) == CreateSim(ConfigInNumbers(b))
  {
    hide Get32, Number;
    var p := b[8..][..CONFIG_SIZE];
    assert p == b[8..36];
    forall i | 0 <= i < 7
      ensures GetWords(p, 7)[i] == Number(b, 8 + 4 * i)
    {
      SpelledAt(b, 36, 4 * i);
    }
  }

  lemma SpelledAt(b: seq<byte>, end: nat, at: nat)
    requires 8 + at + 4 <= end <= |b|
    ensures Get32(b[8..end], at) == Number(b, 8 + at)
  {
  }

  /** Whatever comes first on a connection, this is all the server sends on it. */
  lemma EveryOpeningIsAnswered(b: seq<byte>, present: bool, w: World)
    ensures ServerFrames(b, present, w) ==
      if |b| < 8 then []
      else if Number(b, 0) == 3 then
        if |b| < 36 then [Error(3, w.wording.badConfig)]
        else if ValidateSimulationConfig(ConfigInNumbers(b)) then [SimCreated] + Replies(b[36..], w, 0)
        else [Error(6, w.wording.cannotCreate)]
      else if Number(b, 0) == 1 then
        if present then Replies(b[8..], w, 0) else [Error(2, w.wording.noSimulation)]
      else [Error(6, w.wording.unexpected)]
  {
    hide Get32, Number, Parse, ConfigInNumbers, ValidateSimulationConfig, Replies;
    if |b| >= 8 {
      Get32IsNumber(b, 0);
      if |b| >= 36 {
        ConfigIsSpelled(b);
        assert b[8..][28..] == b[36..];
      }
    }
  }

  // ---------------------------------------------------------------- the client

  function StateInNumbers(b: seq<byte>): ParkingState
    requires |b| >= 32
  {
    ParkingState(Number(b, 8), Number(b, 12), Number(b, 16), Number(b, 20), Number(b, 24), Number(b, 28))
  }

  function StatisticsInNumbers(b: seq<byte>): WireStats
    requires |b| >= 44
  {
    WireStats(Number(b, 8), Number(b, 12), Number(b, 16), Number(b, 20), Number(b, 24), Number(b, 28),
              b[32..36], b[36..40], b[40..44])
  }

  lemma StateIsSpelled(b: seq<byte>)
    requires |b| >= 32
    ensures Parse(MSG_STATE_UPDATE, b[8..][..STATE_SIZE]) == StateUpdate(StateInNumbers(b))
  {
    hide Get32, Number;
    var p := b[8..][..STATE_SIZE];
    assert p == b[8..32];
    forall i | 0 <= i < 6
      ensures GetWords(p, 6)[i] == Number(b, 8 + 4 * i)
    {
      SpelledAt(b, 32, 4 * i);
    }
  }

  lemma StatisticsAreSpelled(b: seq<byte>)
    requires |b| >= 44
    ensures Parse(MSG_STATS_UPDATE, b[8..][..STATS_SIZE]) == StatsUpdate(StatisticsInNumbers(b))
  {
    hide Get32, Number;
    var p := b[8..][..STATS_SIZE];
    assert p == b[8..44];
    forall i | 0 <= i < 6
      ensures GetWords(p, 6)[i] == Number(b, 8 + 4 * i)
    {
      SpelledAt(b, 44, 4 * i);
    }
    assert p[24..28] == b[32..36] && p[28..32] == b[36..40] && p[32..36] == b[40..44];
  }

  /** Whatever the server sends, this is what the client makes of it when it wants the given type,
      whose payload has the given size, and what it leaves. */
  predicate TakenInNumbers(b: seq<byte>, want: int, size: nat, r: (Outcome, seq<byte>)) {
    if |b| == 0 then r == (Ended, [])
    else if |b| < 8 then r == (Torn, [])
    else if Number(b, 0) == want then
      if |b| < 8 + size then r == (Torn, []) else r.0.Got? && r.1 == b[8 + size..]
    else if Number(b, 0) == 14 then
      if |b| < 268 then r == (Torn, []) else r == (Refused, b[268..])
    else r == (Unexpected, b[8..])
  }

  lemma ReplyIsTaken(b: seq<byte>, want: u32)
    requires want in {MSG_SIM_CREATED, MSG_STATE_UPDATE, MSG_STATS_UPDATE}
    ensures TakenInNumbers(b, want, PayloadSize(want), Reply(b, want))
  {
    hide Get32, Number, Parse;
    if |b| >= 8 {
      Get32IsNumber(b, 0);
      if |b| >= 268 {
        assert b[8..][260..] == b[268..];
      }
      if |b| >= 8 + PayloadSize(want) {
        assert b[8..][PayloadSize(want)..] == b[8 + PayloadSize(want)..];
      }
    }
  }

  lemma EveryReplyIsTaken(b: seq<byte>)
    ensures TakenInNumbers(b, 4, 0, Reply(b, 4)) && (Reply(b, 4).0.Got? ==> Reply(b, 4).0 == Got(SimCreated))
    ensures TakenInNumbers(b, 8, 24, Reply(b, 8))
    ensures Reply(b, 8).0.Got? ==> |b| >= 32 && Reply(b, 8).0 == Got(StateUpdate(StateInNumbers(b)))
    ensures TakenInNumbers(b, 10, 36, Reply(b, 10))
    ensures Reply(b, 10).0.Got? ==> |b| >= 44 && Reply(b, 10).0 == Got(StatsUpdate(StatisticsInNumbers(b)))
  {
    hide Get32, Number, Parse, TakenInNumbers, StateInNumbers, StatisticsInNumbers;
    ReplyIsTaken(b, 4);
    ReplyIsTaken(b, 8);
    ReplyIsTaken(b, 10);
    GotCreatedOnly(b);
    if |b| >= 32 {
      StateIsSpelled(b);
    }
    if |b| >= 44 {
      StatisticsAreSpelled(b);
    }
  }
}
