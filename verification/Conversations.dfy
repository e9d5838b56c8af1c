/** The two programs together. Each reads what the other writes, so the two streams of a
    connection are a pair that both programs agree with; this module determines that pair for
    every session and shows that both sides always read at frame boundaries. */
module Conversations {
  import opened Configuration
  import opened Codec
  import opened Network
  import opened Handlers

  /** The client, receiving r, sends c; the server, receiving c, sends r. */
  predicate Conversation(s: Session, present: bool, w: World, c: seq<byte>, r: seq<byte>) {
    c == EncodeAll(ClientFrames(s, r)) && r == EncodeAll(ServerFrames(c, present, w))
  }

  predicate Accepted(s: Session, present: bool) {
    if s.opening.Create? then ValidateSimulationConfig(s.opening.config) else present
  }

  function RequestAnswer(q: Request, w: World, n: nat): Frame {
    if q.AskState? then StateAnswer(w, n) else StatisticsAnswer(w, n)
  }

  function RequestAnswers(qs: seq<Request>, w: World, n: nat): seq<Frame> {
    if qs == [] then [] else [RequestAnswer(qs[0], w, n)] + RequestAnswers(qs[1..], w, n + 1)
  }

  /** What the server sends in the end. A refused join is answered too, though the client has
      not asked for an answer. */
  function Served(s: Session, present: bool, w: World): seq<Frame> {
    if Accepted(s, present) then
      (if s.opening.Create? then [SimCreated] else []) + RequestAnswers(s.requests, w, 0)
    else if s.opening.Create? then [Error(ERR_INTERNAL, w.wording.cannotCreate)]
    else [Error(ERR_SIM_NOT_FOUND, w.wording.noSimulation)]
  }

  /** And the client. A creation refused ends the session; a join refused does not. */
  function Asked(s: Session): seq<Frame> {
    [if s.opening.Create? then CreateSim(s.opening.config) else Connect]
    + (if s.opening.Create? && !ValidateSimulationConfig(s.opening.config) then [] else RequestFrames(s.requests))
    + [Disconnect]
  }

  /** The frames from the i-th on; none beyond the last. */
  function From(fs: seq<Frame>, i: nat): seq<Frame> {
    if i <= |fs| then fs[i..] else []
  }

  /** The i-th exchange begins at the i-th frame and takes exactly it: the answer wanted, or an
      error; after the last frame there is nothing. */
  predicate Aligned(t: seq<Exchange>, fs: seq<Frame>) {
    forall i :: 0 <= i < |t| ==>
      && t[i].before == EncodeAll(From(fs, i))
      && t[i].outcome == if i >= |fs| then Ended else if fs[i].Error? then Refused else Got(fs[i])
  }

  // ---------------------------------------------------------------- the server, given requests

  lemma HeaderOfFrame(f: Frame, rest: seq<byte>)
    requires Payload(f) == []
    ensures var b := Encode(f) + rest;
            |b| >= HEADER_SIZE && Get32(b, 0) == Kind(f) && b[HEADER_SIZE..] == rest
  {
  }

  /** The handler answers requests one by one and reads every header at a frame boundary. */
  lemma {:induction false} RequestsAreAnswered(qs: seq<Request>, w: World, n: nat)
    ensures var b := EncodeAll(RequestFrames(qs) + [Disconnect]);
            && Replies(b, w, n) == RequestAnswers(qs, w, n)
            && HeaderReads(b) == Suffixes(RequestFrames(qs) + [Disconnect])
    decreases |qs|
  {
    hide Encode, Get32, StateAnswer, StatisticsAnswer;
    var fs := RequestFrames(qs) + [Disconnect];
    var b := EncodeAll(fs);
    if qs == [] {
      assert fs == [Disconnect] && fs[1..] == [];
      HeaderOfFrame(Disconnect, []);
      assert Encode(Disconnect) + [] == b;
    } else {
      var more := RequestFrames(qs[1..]) + [Disconnect];
      assert fs == [RequestFrame(qs[0])] + more;
      assert fs[1..] == more;
      HeaderOfFrame(RequestFrame(qs[0]), EncodeAll(more));
      RequestsAreAnswered(qs[1..], w, n + 1);
    }
  }

  /** The streams that begin at the frames of a list. */
  function Suffixes(fs: seq<Frame>): (r: seq<seq<byte>>)
    ensures |r| == |fs| && forall i :: 0 <= i < |fs| ==> r[i] == EncodeAll(fs[i..])
  {
    seq(|fs|, i requires 0 <= i < |fs| => EncodeAll(fs[i..]))
  }

  // ---------------------------------------------------------------- the client, given frames

  /** The frames are answers to the first questions, or errors. */
  predicate AnswersTo(qs: seq<Request>, fs: seq<Frame>) {
    |fs| <= |qs| && forall i :: 0 <= i < |fs| ==> fs[i].Error? || Kind(fs[i]) == Wanted(qs[i])
  }

  lemma AlignedCons(e: Exchange, t: seq<Exchange>, fs: seq<Frame>, rest: seq<Frame>)
    requires Aligned(t, rest) && rest == From(fs, 1)
    requires e.before == EncodeAll(fs)
    requires e.outcome == if fs == [] then Ended else if fs[0].Error? then Refused else Got(fs[0])
    ensures Aligned([e] + t, fs)
  {
    hide EncodeAll;
    forall i | 0 <= i < |t| + 1
      ensures ([e] + t)[i].before == EncodeAll(From(fs, i))
      ensures ([e] + t)[i].outcome == if i >= |fs| then Ended else if fs[i].Error? then Refused else Got(fs[i])
    {
      if i == 0 {
        assert fs[0..] == fs;
      } else {
        assert From(rest, i - 1) == From(fs, i);
      }
    }
  }

  /** Reading by type finds the frames one by one. */
  lemma {:induction false} ExchangesAreAligned(qs: seq<Request>, fs: seq<Frame>)
    requires AnswersTo(qs, fs)
    ensures Aligned(Exchanges(qs, EncodeAll(fs)), fs)
    decreases |qs|
  {
    hide Encode, Reply, Aligned;
    if qs == [] {
      NothingIsAligned(fs);
    } else {
      var b, rest := EncodeAll(fs), From(fs, 1);
      FirstReply(qs[0], fs);
      assert AnswersTo(qs[1..], rest);
      ExchangesAreAligned(qs[1..], rest);
      AlignedCons(Exchange(b, Reply(b, Wanted(qs[0])).0), Exchanges(qs[1..], EncodeAll(rest)), fs, rest);
    }
  }

  lemma NothingIsAligned(fs: seq<Frame>)
    ensures Aligned([], fs)
  {
  }

  lemma FirstReply(q: Request, fs: seq<Frame>)
    requires fs == [] || fs[0].Error? || Kind(fs[0]) == Wanted(q)
    ensures Reply(EncodeAll(fs), Wanted(q))
            == (if fs == [] then Ended else if fs[0].Error? then Refused else Got(fs[0]), EncodeAll(From(fs, 1)))
  {
    if fs != [] {
      ReplyIsAFrame(fs[0], EncodeAll(fs[1..]), Wanted(q));
      hide Encode, Reply;
    }
  }

  lemma {:induction false} RequestAnswersAnswer(qs: seq<Request>, w: World, n: nat)
    ensures |RequestAnswers(qs, w, n)| == |qs| && AnswersTo(qs, RequestAnswers(qs, w, n))
    ensures forall i :: 0 <= i < |qs| ==> RequestAnswers(qs, w, n)[i] == RequestAnswer(qs[i], w, n + i)
    decreases |qs|
  {
    if qs != [] {
      RequestAnswersAnswer(qs[1..], w, n + 1);
      var later := RequestAnswers(qs[1..], w, n + 1);
      forall i | 0 <= i < |qs|
        ensures RequestAnswers(qs, w, n)[i] == RequestAnswer(qs[i], w, n + i)
      {
        if i > 0 {
          assert later[i - 1] == RequestAnswer(qs[1..][i - 1], w, n + 1 + (i - 1));
        }
      }
    }
  }

  // ---------------------------------------------------------------- the first message

  lemma EncodeAllCons(f: Frame, fs: seq<Frame>)
    ensures EncodeAll([f] + fs) == Encode(f) + EncodeAll(fs)
  {
  }

  lemma CreateIsDispatched(config: SimulationConfig, rest: seq<byte>, present: bool)
    ensures DispatchOf(Encode(CreateSim(config)) + rest, present)
            == if ValidateSimulationConfig(config) then Created(config, rest) else Rejected
  {
    EncodeParts(CreateSim(config), rest);
    ParsePayload(CreateSim(config));
    hide Encode, Payload, Parse, Get32, ValidateSimulationConfig;
    var b := Encode(CreateSim(config)) + rest;
    var body := b[HEADER_SIZE..];
    assert body[..CONFIG_SIZE] == b[HEADER_SIZE..HEADER_SIZE + CONFIG_SIZE];
    assert body[CONFIG_SIZE..] == b[HEADER_SIZE + CONFIG_SIZE..];
  }

  lemma ConnectIsDispatched(rest: seq<byte>, present: bool)
    ensures DispatchOf(Encode(Connect) + rest, present) == if present then Joined(rest) else NoSimulation
  {
    HeaderOfFrame(Connect, rest);
    hide Encode, Get32, CreateDispatch;
  }

  /** What a session sends after its opening, if it is accepted. */
  function Rest(s: Session): seq<Frame> {
    RequestFrames(s.requests) + [Disconnect]
  }

  /** The server's answer to the client's whole stream. */
  lemma ServerServes(s: Session, present: bool, w: World)
    ensures ServerFrames(EncodeAll(Asked(s)), present, w) == Served(s, present, w)
    ensures Accepted(s, present) ==>
              var d := DispatchOf(EncodeAll(Asked(s)), present);
              HandedOver(d) && d.rest == EncodeAll(Rest(s)) && HeaderReads(d.rest) == Suffixes(Rest(s))
    ensures !Accepted(s, present) ==> !HandedOver(DispatchOf(EncodeAll(Asked(s)), present))
  {
    hide Encode, DispatchOf, Replies, HeaderReads, ValidateSimulationConfig;
    RequestsAreAnswered(s.requests, w, 0);
    match s.opening
    case Create(config) =>
      var tail := if ValidateSimulationConfig(config) then Rest(s) else [Disconnect];
      assert Asked(s) == [CreateSim(config)] + tail;
      EncodeAllCons(CreateSim(config), tail);
      CreateIsDispatched(config, EncodeAll(tail), present);
    case Join =>
      assert Asked(s) == [Connect] + Rest(s);
      EncodeAllCons(Connect, Rest(s));
      ConnectIsDispatched(EncodeAll(Rest(s)), present);
  }

  /** The client's session over the server's whole stream. */
  lemma ClientAsks(s: Session, present: bool, w: World)
    ensures ClientFrames(s, EncodeAll(Served(s, present, w))) == Asked(s)
    ensures Aligned(ClientExchanges(s, EncodeAll(Served(s, present, w))), Served(s, present, w))
  {
    hide Encode, Reply, Aligned, Exchanges, EncodeAll, ValidateSimulationConfig;
    var fs := Served(s, present, w);
    RequestAnswersAnswer(s.requests, w, 0);
    if s.opening.Join? {
      if fs == [] || s.requests == [] {
        assert |s.requests| == 0 || |fs| == 0;
      }
      ExchangesOfJoin(s.requests, fs);
    } else {
      ClientOpens(s, present, w);
    }
  }

  lemma ExchangesOfJoin(qs: seq<Request>, fs: seq<Frame>)
    requires AnswersTo(qs, fs) || (|fs| == 1 && fs[0].Error?)
    ensures Aligned(Exchanges(qs, EncodeAll(fs)), fs)
  {
    if AnswersTo(qs, fs) {
      ExchangesAreAligned(qs, fs);
    }
  }

  lemma ClientOpens(s: Session, present: bool, w: World)
    requires s.opening.Create?
    ensures ClientFrames(s, EncodeAll(Served(s, present, w))) == Asked(s)
    ensures Aligned(ClientExchanges(s, EncodeAll(Served(s, present, w))), Served(s, present, w))
  {
    hide Encode, Reply, Exchanges, Aligned, ValidateSimulationConfig;
    var fs := Served(s, present, w);
    var b := EncodeAll(fs);
    ReplyIsAFrame(fs[0], EncodeAll(fs[1..]), MSG_SIM_CREATED);
    var e := Exchange(b, Reply(b, MSG_SIM_CREATED).0);
    if Accepted(s, present) {
      var answers := RequestAnswers(s.requests, w, 0);
      RequestAnswersAnswer(s.requests, w, 0);
      assert fs[1..] == answers;
      ExchangesAreAligned(s.requests, answers);
      AlignedCons(e, Exchanges(s.requests, EncodeAll(answers)), fs, answers);
    } else {
      assert fs[1..] == [];
      NothingIsAligned([]);
      AlignedCons(e, [], fs, []);
      assert [e] + [] == [e];
    }
  }

  // ---------------------------------------------------------------- the whole conversation

  /** What the server makes of the opening does not depend on the rest of the client's stream;
      so the client learns whether it is accepted, and sends the rest accordingly. */
  lemma OpeningIsSettled(s: Session, present: bool, w: World, r: seq<byte>)
    ensures r == EncodeAll(ServerFrames(EncodeAll(ClientFrames(s, r)), present, w)) ==> ClientFrames(s, r) == Asked(s)
  {
    hide Encode, DispatchOf, Replies, Reply, ValidateSimulationConfig;
    var c := EncodeAll(ClientFrames(s, r));
    if s.opening.Create? && r == EncodeAll(ServerFrames(c, present, w)) {
      var config := s.opening.config;
      var tail := ClientFrames(s, r)[1..];
      assert ClientFrames(s, r) == [CreateSim(config)] + tail;
      EncodeAllCons(CreateSim(config), tail);
      CreateIsDispatched(config, EncodeAll(tail), present);
      var first := if ValidateSimulationConfig(config) then SimCreated else Error(ERR_INTERNAL, w.wording.cannotCreate);
      assert ServerFrames(c, present, w)[0] == first;
      ReplyIsAFrame(first, EncodeAll(ServerFrames(c, present, w)[1..]), MSG_SIM_CREATED);
    }
  }

  /** In every session the two programs agree on exactly one pair of streams. */
  lemma OneConversation(s: Session, present: bool, w: World, c: seq<byte>, r: seq<byte>)
    ensures Conversation(s, present, w, c, r)
            <==> c == EncodeAll(Asked(s)) && r == EncodeAll(Served(s, present, w))
  {
    OpeningIsSettled(s, present, w, r);
    ServerServes(s, present, w);
    ClientAsks(s, present, w);
    hide EncodeAll, Asked, Served, ClientFrames, ServerFrames;
  }

  /** The stream the client receives in its session's conversation. */
  function Received(s: Session, present: bool, w: World): seq<byte> {
    EncodeAll(Served(s, present, w))
  }

  /** Frame alignment, in the one conversation of any session. Every header the client reads is
      at a frame boundary, or at the end of the stream once a refused session has used up its
      error; every frame it takes for an answer is the one the server wrote for that question; it
      never meets a type it does not expect nor a torn frame. */
  lemma ClientIsAligned(s: Session, present: bool, w: World)
    ensures Aligned(ClientExchanges(s, Received(s, present, w)), Served(s, present, w))
    ensures var t := ClientExchanges(s, Received(s, present, w));
            forall i :: 0 <= i < |t| ==> t[i].outcome != Unexpected && t[i].outcome != Torn
  {
    ClientAsks(s, present, w);
    hide EncodeAll, Served, ClientExchanges, Aligned;
    AlignedMeetsOnlyFrames(ClientExchanges(s, Received(s, present, w)), Served(s, present, w));
  }

  lemma AlignedMeetsOnlyFrames(t: seq<Exchange>, fs: seq<Frame>)
    requires Aligned(t, fs)
    ensures forall i :: 0 <= i < |t| ==> t[i].outcome != Unexpected && t[i].outcome != Torn
  {
    hide EncodeAll;
  }

  /** The server reads the opening, then every header at a frame boundary, the last one being
      the client's farewell. */
  lemma ServerIsAligned(s: Session, present: bool, w: World)
    ensures var d := DispatchOf(EncodeAll(Asked(s)), present);
            && HandedOver(d) == Accepted(s, present)
            && !d.NoHeader? && !d.NoConfig? && !d.Unknown?
            && (HandedOver(d) ==> d.rest == EncodeAll(Rest(s)) && HeaderReads(d.rest) == Suffixes(Rest(s)))
  {
    ServerServes(s, present, w);
    OpeningIsKnown(s, present);
  }

  lemma OpeningIsKnown(s: Session, present: bool)
    ensures var d := DispatchOf(EncodeAll(Asked(s)), present);
            !d.NoHeader? && !d.NoConfig? && !d.Unknown?
  {
    hide Encode, DispatchOf, ValidateSimulationConfig;
    var first, tail := Asked(s)[0], Asked(s)[1..];
    assert Asked(s) == [first] + tail;
    EncodeAllCons(first, tail);
    if s.opening.Create? {
      CreateIsDispatched(s.opening.config, EncodeAll(tail), present);
    } else {
      ConnectIsDispatched(EncodeAll(tail), present);
    }
  }

  /** What a client should make of the server's snapshot for a question. */
  function SnapshotOutcome(q: Request, snap: Snapshot): Outcome {
    match q
    case AskState => if snap.state.Some? then Got(StateUpdate(snap.state.value)) else Refused
    case AskStatistics => if snap.stats.Some? then Got(StatsUpdate(snap.stats.value)) else Refused
  }

  lemma AlignedAt(t: seq<Exchange>, fs: seq<Frame>, k: nat, q: Request, w: World, n: nat)
    requires Aligned(t, fs) && k < |t| && k < |fs| && fs[k] == RequestAnswer(q, w, n)
    ensures t[k].outcome == SnapshotOutcome(q, w.snapshots(n))
  {
    hide EncodeAll;
  }

  lemma AcceptedExchanges(s: Session, present: bool, w: World)
    requires Accepted(s, present)
    ensures |ClientExchanges(s, EncodeAll(Served(s, present, w)))|
            == (if s.opening.Create? then 1 else 0) + |s.requests|
  {
    hide Encode, Reply, Exchanges, EncodeAll, ValidateSimulationConfig;
    if s.opening.Create? {
      var later := RequestAnswers(s.requests, w, 0);
      EncodeAllCons(SimCreated, later);
      ReplyIsAFrame(SimCreated, EncodeAll(later), MSG_SIM_CREATED);
    }
  }

  /** An accepted client receives, question by question, the snapshots the server took. */
  lemma AnswersAreTheSnapshots(s: Session, present: bool, w: World, i: nat)
    requires Accepted(s, present) && i < |s.requests|
    ensures |ClientExchanges(s, Received(s, present, w))| == (if s.opening.Create? then 1 else 0) + |s.requests|
    ensures ClientExchanges(s, Received(s, present, w))[if s.opening.Create? then i + 1 else i].outcome
            == SnapshotOutcome(s.requests[i], w.snapshots(i))
  {
    ClientIsAligned(s, present, w);
    AcceptedExchanges(s, present, w);
    ServedAt(s, present, w, i);
    hide ClientExchanges, Aligned, EncodeAll, RequestAnswer, SnapshotOutcome, Served, Asked, Accepted;
    AlignedAt(ClientExchanges(s, Received(s, present, w)), Served(s, present, w), if s.opening.Create? then i + 1 else i, s.requests[i], w, i);
  }

  lemma ServedAt(s: Session, present: bool, w: World, i: nat)
    requires Accepted(s, present) && i < |s.requests|
    ensures var k := if s.opening.Create? then i + 1 else i;
            k < |Served(s, present, w)| && Served(s, present, w)[k] == RequestAnswer(s.requests[i], w, i)
  {
    RequestAnswersAnswer(s.requests, w, 0);
    hide RequestAnswer, RequestAnswers, ValidateSimulationConfig;
  }

  /** A refused join costs the client its first question, which the error answers; the later
      ones find the stream at its end. */
  lemma RefusedJoin(s: Session, w: World)
    requires s.opening.Join?
    ensures Received(s, false, w) == Encode(Error(2, w.wording.noSimulation))
    ensures var t := ClientExchanges(s, Received(s, false, w));
            |t| == |s.requests| && forall i :: 0 <= i < |t| ==> t[i].outcome == if i == 0 then Refused else Ended
  {
    ClientIsAligned(s, false, w);
    hide Encode, Exchanges;
    var e := Error(ERR_SIM_NOT_FOUND, w.wording.noSimulation);
    EncodeAllCons(e, []);
    assert [e] + [] == [e];
  }
}
