/** client/network.c: the client's side of the conversation. */
module Network {
  import opened Words
  import opened Configuration
  import opened Simulations
  import opened Codec
  import opened Sockets

  /** What became of a request: answered, answered with an error, or not answered because the
      stream had ended between frames (Ended), ended inside one (Torn), or held a frame of a
      type the client does not expect (Unexpected). The program tells only Got from the rest. */
  datatype Outcome = Got(frame: Frame) | Refused | Ended | Torn | Unexpected

  /** What reading one reply makes of a stream when a given type is wanted, and what is left. */
  function Reply(b: seq<byte>, want: u32): (Outcome, seq<byte>)
    requires Known(want) && want != MSG_ERROR
  {
    if |b| < HEADER_SIZE then (if b == [] then Ended else Torn, [])
    else
      var kind, body := Get32(b, 0), b[HEADER_SIZE..];
      if kind != want && kind != MSG_ERROR then (Unexpected, body)
      else if |body| < PayloadSize(kind) then (Torn, [])
      else (if kind == want then Got(Parse(kind, body[..PayloadSize(kind)])) else Refused, body[PayloadSize(kind)..])
  }

  /** On a frame boundary a reply is a whole frame: the wanted one, an error, or another type. */
  lemma ReplyIsAFrame(f: Frame, rest: seq<byte>, want: u32)
    requires Known(want) && want != MSG_ERROR && (Kind(f) == want || f.Error?)
    ensures Reply(Encode(f) + rest, want) == (if Kind(f) == want then Got(Delivered(f)) else Refused, rest)
  {
    EncodeParts(f, rest);
    ParsePayload(f);
    hide Encode, Payload, Parse, Get32;
    var b := Encode(f) + rest;
    var body := b[HEADER_SIZE..];
    var n := |Payload(f)|;
    assert body[..n] == b[HEADER_SIZE..HEADER_SIZE + n] && body[n..] == b[HEADER_SIZE + n..];
  }

  lemma ParsedState(b: seq<byte>, p: ParkingState)
    requires |b| >= STATE_SIZE && b[..STATE_SIZE] == Payload(StateUpdate(p))
    ensures Parse(MSG_STATE_UPDATE, b[..STATE_SIZE]) == StateUpdate(p)
  {
    ParsePayload(StateUpdate(p));
  }

  lemma ParsedStats(b: seq<byte>, t: WireStats)
    requires |b| >= STATS_SIZE && b[..STATS_SIZE] == Payload(StatsUpdate(t))
    ensures Parse(MSG_STATS_UPDATE, b[..STATS_SIZE]) == StatsUpdate(t)
  {
    ParsePayload(StatsUpdate(t));
  }

  method NetworkCreateSimulation(sock: Socket, config: SimulationConfig) returns (result: int)
    modifies sock
    ensures sock.outbox == old(sock.outbox) + Encode(CreateSim(config))
    ensures sock.inbox == Reply(old(sock.inbox), MSG_SIM_CREATED).1
    ensures result == if Reply(old(sock.inbox), MSG_SIM_CREATED).0 == Got(SimCreated) then 0 else -1
  {
    hide Encode, Get32;
    var sent := sock.SendSimulationConfig(config);
    if !sent {
      return -1;
    }
    var ok, kind, _ := sock.RecvMessageHeader();
    if !ok {
      return -1;
    }
    if kind == MSG_SIM_CREATED {
      return 0;
    } else if kind == MSG_ERROR {
      var _, _, _ := sock.RecvError();
      return -1;
    }
    result := -1;
  }

  /** Joining is not acknowledged. */
  method NetworkJoinSimulation(sock: Socket) returns (result: int)
    modifies sock
    ensures sock.outbox == old(sock.outbox) + Encode(Connect) && sock.inbox == old(sock.inbox)
    ensures result == 0
  {
    SendFrameWithoutPayload(sock, Connect);
    result := 0;
  }

  method SendFrameWithoutPayload(sock: Socket, f: Frame)
    requires PayloadSize(Kind(f)) == 0
    modifies sock
    ensures sock.outbox == old(sock.outbox) + Encode(f) && sock.inbox == old(sock.inbox)
  {
    hide Put32;
    sock.SendMessageHeader(Kind(f), 0);
    assert HeaderBytes(Kind(f), 0) == Encode(f);
  }

  method NetworkGetState(sock: Socket) returns (result: int, state: ParkingState)
    modifies sock
    ensures sock.outbox == old(sock.outbox) + Encode(GetState)
    ensures sock.inbox == Reply(old(sock.inbox), MSG_STATE_UPDATE).1
    ensures result == if Reply(old(sock.inbox), MSG_STATE_UPDATE).0.Got? then 0 else -1
    ensures result == 0 ==> Reply(old(sock.inbox), MSG_STATE_UPDATE).0 == Got(StateUpdate(state))
  {
    hide Encode, Get32, Payload, Parse;
    state := ParkingState(0, 0, 0, 0, 0, 0);
    SendFrameWithoutPayload(sock, GetState);
    var ok, kind, _ := sock.RecvMessageHeader();
    if !ok {
      return -1, state;
    }
    if kind == MSG_STATE_UPDATE {
      ghost var body := sock.inbox;
      ok, state := sock.RecvParkingState();
      if ok {
        assert body[..STATE_SIZE] == Payload(StateUpdate(state));
        ParsedState(body, state);
      }
      return if ok then 0 else -1, state;
    } else if kind == MSG_ERROR {
      var _, _, _ := sock.RecvError();
      return -1, state;
    }
    result := -1;
  }

  method NetworkGetStatistics(sock: Socket) returns (result: int, stats: WireStats)
    modifies sock
    ensures sock.outbox == old(sock.outbox) + Encode(GetStats)
    ensures sock.inbox == Reply(old(sock.inbox), MSG_STATS_UPDATE).1
    ensures result == if Reply(old(sock.inbox), MSG_STATS_UPDATE).0.Got? then 0 else -1
    ensures result == 0 ==> Reply(old(sock.inbox), MSG_STATS_UPDATE).0 == Got(StatsUpdate(stats))
  {
    hide Encode, Get32, Payload, Parse;
    var zero: Raw := [0, 0, 0, 0];
    stats := WireStats(0, 0, 0, 0, 0, 0, zero, zero, zero);
    SendFrameWithoutPayload(sock, GetStats);
    var ok, kind, _ := sock.RecvMessageHeader();
    if !ok {
      return -1, stats;
    }
    if kind == MSG_STATS_UPDATE {
      ghost var body := sock.inbox;
      ok, stats := sock.RecvStatistics();
      if ok {
        assert body[..STATS_SIZE] == Payload(StatsUpdate(stats));
        ParsedStats(body, stats);
      }
      return if ok then 0 else -1, stats;
    } else if kind == MSG_ERROR {
      var _, _, _ := sock.RecvError();
      return -1, stats;
    }
    result := -1;
  }

  method NetworkSendDisconnect(sock: Socket)
    modifies sock
    ensures sock.outbox == old(sock.outbox) + Encode(Disconnect) && sock.inbox == old(sock.inbox)
  {
    SendFrameWithoutPayload(sock, Disconnect);
  }

  // ---------------------------------------------------------------- a session

  datatype Opening = Create(config: SimulationConfig) | Join
  datatype Request = AskState | AskStatistics

  /** What a user does: create or join a simulation, ask any number of questions, leave. */
  datatype Session = Session(opening: Opening, requests: seq<Request>)

  /** One reading of a reply: the stream it found, and what came of it. */
  datatype Exchange = Exchange(before: seq<byte>, outcome: Outcome)

  function RequestFrame(q: Request): Frame {
    if q.AskState? then GetState else GetStats
  }

  function Wanted(q: Request): u32 {
    if q.AskState? then MSG_STATE_UPDATE else MSG_STATS_UPDATE
  }

  function RequestFrames(qs: seq<Request>): (fs: seq<Frame>)
    ensures |fs| == |qs|
  {
    seq(|qs|, i requires 0 <= i < |qs| => RequestFrame(qs[i]))
  }

  function Exchanges(qs: seq<Request>, b: seq<byte>): (t: seq<Exchange>)
    ensures |t| == |qs|
  {
    if qs == [] then []
    else [Exchange(b, Reply(b, Wanted(qs[0])).0)] + Exchanges(qs[1..], Reply(b, Wanted(qs[0])).1)
  }

  predicate Opens(s: Session, b: seq<byte>) {
    s.opening.Join? || Reply(b, MSG_SIM_CREATED).0 == Got(SimCreated)
  }

  /** What the client sends in a session in which it receives b. */
  function ClientFrames(s: Session, b: seq<byte>): seq<Frame> {
    [if s.opening.Create? then CreateSim(s.opening.config) else Connect]
    + (if Opens(s, b) then RequestFrames(s.requests) else [])
    + [Disconnect]
  }

  /** Every reading of a reply in such a session. */
  function ClientExchanges(s: Session, b: seq<byte>): seq<Exchange> {
    match s.opening
    case Join => Exchanges(s.requests, b)
    case Create(_) =>
      var (o, rest) := Reply(b, MSG_SIM_CREATED);
      [Exchange(b, o)] + if Opens(s, b) then Exchanges(s.requests, rest) else []
  }

  /** What the client's program has to show for an exchange. */
  function Answer(o: Outcome): Option<Frame> {
    if o.Got? then Some(o.frame) else None
  }

  function Answers(t: seq<Exchange>): (r: seq<Option<Frame>>)
    ensures |r| == |t| && forall i :: 0 <= i < |t| ==> r[i] == Answer(t[i].outcome)
  {
    seq(|t|, i requires 0 <= i < |t| => Answer(t[i].outcome))
  }

  lemma EncodeAllAppend(fs: seq<Frame>, f: Frame)
    ensures EncodeAll(fs + [f]) == EncodeAll(fs) + Encode(f)
  {
    hide Encode;
    if fs == [] {
      assert fs + [f] == [f];
      assert EncodeAll([f][1..]) == [];
    } else {
      EncodeAllAppend(fs[1..], f);
      assert (fs + [f])[1..] == fs[1..] + [f];
    }
  }

  /** What remains of a session's exchanges once i questions have been asked. */
  predicate AskedSoFar(qs: seq<Request>, b: seq<byte>, i: nat, answers: seq<Option<Frame>>, rest: seq<byte>) {
    i <= |qs| && Answers(Exchanges(qs, b)) == answers + Answers(Exchanges(qs[i..], rest))
  }

  lemma AskedOneMore(qs: seq<Request>, b: seq<byte>, i: nat, answers: seq<Option<Frame>>, rest: seq<byte>)
    requires i < |qs| && AskedSoFar(qs, b, i, answers, rest)
    ensures AskedSoFar(qs, b, i + 1, answers + [Answer(Reply(rest, Wanted(qs[i])).0)], Reply(rest, Wanted(qs[i])).1)
  {
    hide Reply;
    assert qs[i..][1..] == qs[i + 1..];
    var now := Exchange(rest, Reply(rest, Wanted(qs[i])).0);
    var later := Exchanges(qs[i + 1..], Reply(rest, Wanted(qs[i])).1);
    assert Answers([now] + later) == [Answer(now.outcome)] + Answers(later);
  }

  /** The questions of a session, in order: what is sent, and what the answers are. */
  method AskAll(sock: Socket, qs: seq<Request>) returns (answers: seq<Option<Frame>>)
    modifies sock
    ensures sock.outbox == old(sock.outbox) + EncodeAll(RequestFrames(qs))
    ensures answers == Answers(Exchanges(qs, old(sock.inbox)))
  {
    hide Encode, Reply, AskedSoFar;
    answers := [];
    var i := 0;
    AskedNone(qs, sock.inbox);
    while i < |qs|
      invariant 0 <= i <= |qs|
      invariant sock.outbox == old(sock.outbox) + EncodeAll(RequestFrames(qs[..i]))
      invariant AskedSoFar(qs, old(sock.inbox), i, answers, sock.inbox)
    {
      AskedOneMore(qs, old(sock.inbox), i, answers, sock.inbox);
      OneMoreRequest(qs, i);
      var answer := None;
      if qs[i].AskState? {
        var result, state := NetworkGetState(sock);
        answer := if result == 0 then Some(StateUpdate(state)) else None;
      } else {
        var result, stats := NetworkGetStatistics(sock);
        answer := if result == 0 then Some(StatsUpdate(stats)) else None;
      }
      answers := answers + [answer];
      i := i + 1;
    }
    assert qs[..i] == qs;
    AskedEverything(qs, old(sock.inbox), answers, sock.inbox);
  }

  lemma AskedNone(qs: seq<Request>, b: seq<byte>)
    ensures AskedSoFar(qs, b, 0, [], b)
  {
  }

  lemma AskedEverything(qs: seq<Request>, b: seq<byte>, answers: seq<Option<Frame>>, rest: seq<byte>)
    requires AskedSoFar(qs, b, |qs|, answers, rest)
    ensures answers == Answers(Exchanges(qs, b))
  {
  }

  lemma OneMoreRequest(qs: seq<Request>, i: nat)
    requires i < |qs|
    ensures EncodeAll(RequestFrames(qs[..i + 1])) == EncodeAll(RequestFrames(qs[..i])) + Encode(RequestFrame(qs[i]))
  {
    EncodeAllAppend(RequestFrames(qs[..i]), RequestFrame(qs[i]));
    assert RequestFrames(qs[..i + 1]) == RequestFrames(qs[..i]) + [RequestFrame(qs[i])];
  }

  /** The client's side of a whole session. */
  method PlaySession(sock: Socket, s: Session) returns (answers: seq<Option<Frame>>)
    modifies sock
    ensures sock.outbox == old(sock.outbox) + EncodeAll(ClientFrames(s, old(sock.inbox)))
    ensures answers == Answers(ClientExchanges(s, old(sock.inbox)))
  {
    hide Encode, Reply, Exchanges;
    ghost var b := sock.inbox;
    var outcome, asked := 0, [];
    answers := [];
    match s.opening {
      case Create(config) =>
        outcome := NetworkCreateSimulation(sock, config);
        answers := [if outcome == 0 then Some(SimCreated) else None];
      case Join =>
        outcome := NetworkJoinSimulation(sock);
    }
    if outcome == 0 {
      asked := AskAll(sock, s.requests);
      answers := answers + asked;
    }
    NetworkSendDisconnect(sock);
    SessionBytes(s, b);
    SessionAnswers(s, b);
  }

  lemma SessionBytes(s: Session, b: seq<byte>)
    ensures EncodeAll(ClientFrames(s, b))
            == Encode(if s.opening.Create? then CreateSim(s.opening.config) else Connect)
               + (if Opens(s, b) then EncodeAll(RequestFrames(s.requests)) else [])
               + Encode(Disconnect)
  {
    hide Encode, Opens;
    var first := if s.opening.Create? then CreateSim(s.opening.config) else Connect;
    var middle := if Opens(s, b) then RequestFrames(s.requests) else [];
    EncodeAllAppend([first] + middle, Disconnect);
    assert ([first] + middle)[1..] == middle;
  }

  lemma SessionAnswers(s: Session, b: seq<byte>)
    ensures s.opening.Join? ==> Answers(ClientExchanges(s, b)) == Answers(Exchanges(s.requests, b))
    ensures s.opening.Create? ==>
              Answers(ClientExchanges(s, b))
              == [if Opens(s, b) then Some(SimCreated) else None]
                 + if Opens(s, b) then Answers(Exchanges(s.requests, Reply(b, MSG_SIM_CREATED).1)) else []
  {
    hide Reply, Exchanges;
    GotCreatedOnly(b);
    if s.opening.Create? && Opens(s, b) {
      var first := Exchange(b, Reply(b, MSG_SIM_CREATED).0);
      var later := Exchanges(s.requests, Reply(b, MSG_SIM_CREATED).1);
      assert Answers([first] + later) == [Answer(first.outcome)] + Answers(later);
    }
  }

  lemma GotCreatedOnly(b: seq<byte>)
    ensures Reply(b, MSG_SIM_CREATED).0.Got? ==> Reply(b, MSG_SIM_CREATED).0 == Got(SimCreated)
  {
  }
}
