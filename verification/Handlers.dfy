/** The server's side of the conversation: the first message of a connection (server/server.c)
    and the request loop (server/client_handler.c). */
module Handlers {
  import opened Words
  import opened Configuration
  import opened Simulations
  import opened Codec
  import opened Sockets
  import opened Network

  /** What the two snapshot functions give the handler for one request; nothing if they fail. */
  datatype Snapshot = Snapshot(state: Option<ParkingState>, stats: Option<WireStats>)

  /** The texts of the errors, which the program fixes and nobody reads. */
  datatype Wording = Wording(
    cannotCreate: CString, badConfig: CString, noSimulation: CString, unexpected: CString,
    noState: CString, noStatistics: CString, unknown: CString)

  /** Everything outside the stream that a handler's answers depend on; request n is answered
      with the n-th snapshot. */
  datatype World = World(wording: Wording, snapshots: nat -> Snapshot)

  function StateAnswer(w: World, n: nat): Frame {
    match w.snapshots(n).state
    case Some(p) => StateUpdate(p)
    case None => Error(ERR_INTERNAL, w.wording.noState)
  }

  function StatisticsAnswer(w: World, n: nat): Frame {
    match w.snapshots(n).stats
    case Some(t) => StatsUpdate(t)
    case None => Error(ERR_INTERNAL, w.wording.noStatistics)
  }

  /** The answer to a header of the given type, other than a disconnect. */
  function AnswerTo(kind: u32, w: World, n: nat): Frame {
    if kind == MSG_GET_STATE then StateAnswer(w, n)
    else if kind == MSG_GET_STATS then StatisticsAnswer(w, n)
    else Error(ERR_INTERNAL, w.wording.unknown)
  }

  /** The request loop may stop reading: the stream has ended or asks to disconnect. */
  predicate Over(b: seq<byte>) {
    |b| < HEADER_SIZE || Get32(b, 0) == MSG_DISCONNECT
  }

  /** What the request loop answers to a stream. */
  function Replies(b: seq<byte>, w: World, n: nat): seq<Frame>
    decreases |b|
  {
    if Over(b) then [] else [AnswerTo(Get32(b, 0), w, n)] + Replies(b[HEADER_SIZE..], w, n + 1)
  }

  /** The streams the request loop finds each time it reads a header. */
  function HeaderReads(b: seq<byte>): seq<seq<byte>>
    decreases |b|
  {
    [b] + if Over(b) then [] else HeaderReads(b[HEADER_SIZE..])
  }

  method SendStateAnswer(sock: Socket, w: World, n: nat)
    modifies sock
    ensures sock.inbox == old(sock.inbox) && sock.outbox == old(sock.outbox) + Encode(StateAnswer(w, n))
  {
    hide Encode;
    var state := w.snapshots(n).state;
    if state.Some? {
      var _ := sock.SendParkingState(state.value);
    } else {
      var _ := sock.SendError(ERR_INTERNAL, w.wording.noState);
    }
  }

  method SendStatisticsAnswer(sock: Socket, w: World, n: nat)
    modifies sock
    ensures sock.inbox == old(sock.inbox) && sock.outbox == old(sock.outbox) + Encode(StatisticsAnswer(w, n))
  {
    hide Encode;
    var stats := w.snapshots(n).stats;
    if stats.Some? {
      var _ := sock.SendStatistics(stats.value);
    } else {
      var _ := sock.SendError(ERR_INTERNAL, w.wording.noStatistics);
    }
  }

  lemma RepliesUnfold(b: seq<byte>, w: World, n: nat)
    ensures Over(b) ==> Replies(b, w, n) == []
    ensures !Over(b) ==> Replies(b, w, n) == [AnswerTo(Get32(b, 0), w, n)] + Replies(b[HEADER_SIZE..], w, n + 1)
  {
    hide Get32, AnswerTo;
  }

  /** Of the answers to b0 the first n have been sent, and the rest are those to b. */
  predicate Answered(b0: seq<byte>, w: World, sent: seq<Frame>, later: seq<Frame>) {
    Replies(b0, w, 0) == sent + later
  }

  lemma AnsweredOneMore(b0: seq<byte>, w: World, sent: seq<Frame>, f: Frame, later: seq<Frame>)
    requires Answered(b0, w, sent, [f] + later)
    ensures Answered(b0, w, sent + [f], later)
  {
  }

  method SendAnswer(sock: Socket, kind: u32, w: World, n: nat)
    modifies sock
    ensures sock.inbox == old(sock.inbox) && sock.outbox == old(sock.outbox) + Encode(AnswerTo(kind, w, n))
  {
    hide Encode, StateAnswer, StatisticsAnswer;
    if kind == MSG_GET_STATE {
      SendStateAnswer(sock, w, n);
    } else if kind == MSG_GET_STATS {
      SendStatisticsAnswer(sock, w, n);
    } else {
      var _ := sock.SendError(ERR_INTERNAL, w.wording.unknown);
    }
  }

  /** client_handler_thread: whatever arrives, whole frames are sent. */
  method ClientHandlerThread(sock: Socket, w: World)
    modifies sock
    ensures sock.outbox == old(sock.outbox) + EncodeAll(Replies(old(sock.inbox), w, 0))
  {
    hide Encode, EncodeAll, Get32, Replies, AnswerTo, Answered;
    ghost var sent: seq<Frame> := [];
    ghost var later := Replies(sock.inbox, w, 0);
    AnsweredNothing(sock.inbox, w);
    var n := 0;
    var connected := true;
    while connected
      invariant sock.outbox == old(sock.outbox) + EncodeAll(sent)
      invariant Answered(old(sock.inbox), w, sent, later)
      invariant later == if connected then Replies(sock.inbox, w, n) else []
      decreases connected, |sock.inbox|
    {
      RepliesUnfold(sock.inbox, w, n);
      var ok, kind, _ := sock.RecvMessageHeader();
      if !ok {
        connected := false;
      } else if kind == MSG_DISCONNECT {
        connected := false;
      } else {
        ghost var answer := AnswerTo(kind, w, n);
        SendAnswer(sock, kind, w, n);
        n := n + 1;
        later := Replies(sock.inbox, w, n);
        AnsweredOneMore(old(sock.inbox), w, sent, answer, later);
        EncodeAllAppend(sent, answer);
        sent := sent + [answer];
      }
    }
    AnsweredAll(old(sock.inbox), w, sent);
  }

  lemma AnsweredNothing(b: seq<byte>, w: World)
    ensures Answered(b, w, [], Replies(b, w, 0)) && EncodeAll([]) == []
  {
  }

  lemma AnsweredAll(b: seq<byte>, w: World, sent: seq<Frame>)
    requires Answered(b, w, sent, [])
    ensures Replies(b, w, 0) == sent
  {
  }

  // ---------------------------------------------------------------- the first message

  /** What the first message of a connection amounts to; the stream goes on with rest. */
  datatype Dispatch =
    | NoHeader
    | Created(config: SimulationConfig, rest: seq<byte>)
    | Rejected
    | NoConfig
    | Joined(rest: seq<byte>)
    | NoSimulation
    | Unknown

  function CreateDispatch(body: seq<byte>): (d: Dispatch)
    ensures d.Created? || d.Rejected? || d.NoConfig?
  {
    if |body| < CONFIG_SIZE then NoConfig
    else
      var config := Parse(MSG_CREATE_SIM, body[..CONFIG_SIZE]).config;
      if ValidateSimulationConfig(config) then Created(config, body[CONFIG_SIZE..]) else Rejected
  }

  function DispatchOf(b: seq<byte>, present: bool): Dispatch {
    if |b| < HEADER_SIZE then NoHeader
    else
      var kind, body := Get32(b, 0), b[HEADER_SIZE..];
      if kind == MSG_CREATE_SIM then CreateDispatch(body)
      else if kind == MSG_CONNECT then
        if present then Joined(body) else NoSimulation
      else Unknown
  }

  /** What is sent before a handler takes over, or instead. */
  function DispatchReplies(d: Dispatch, w: Wording): seq<Frame> {
    match d
    case NoHeader => []
    case Created(_, _) => [SimCreated]
    case Rejected => [Error(ERR_INTERNAL, w.cannotCreate)]
    case NoConfig => [Error(ERR_INVALID_CONFIG, w.badConfig)]
    case Joined(_) => []
    case NoSimulation => [Error(ERR_SIM_NOT_FOUND, w.noSimulation)]
    case Unknown => [Error(ERR_INTERNAL, w.unexpected)]
  }

  predicate HandedOver(d: Dispatch) {
    d.Created? || d.Joined?
  }

  /** Everything the server sends on a connection on which it receives b. */
  function ServerFrames(b: seq<byte>, present: bool, w: World): seq<Frame> {
    var d := DispatchOf(b, present);
    DispatchReplies(d, w.wording) + if HandedOver(d) then Replies(d.rest, w, 0) else []
  }

  class Server {
    var simulation: Simulation?

    constructor ()
      ensures simulation == null
    {
      simulation := null;
    }

    /** server_create_simulation; a simulation already there is gone even if no new one can be
        created. */
    method CreateSimulation(config: SimulationConfig, draw: Draw) returns (ok: bool)
      modifies this
      ensures ok <==> ValidateSimulationConfig(config)
      ensures simulation == null <==> !ok
      ensures ok ==> fresh(simulation) && simulation.Valid() && simulation.running
                     && simulation.Value() == Initial(config, draw)
    {
      simulation := null;
      simulation := Simulation.Create(config, draw);
      if simulation == null {
        return false;
      }
      ok := simulation.Start();
    }

    /** The case of a message that asks for a simulation, its header already read. */
    method AcceptConfig(sock: Socket, draw: Draw, w: Wording) returns (handed: bool)
      modifies this, sock
      ensures var d := CreateDispatch(old(sock.inbox));
              && sock.outbox == old(sock.outbox) + EncodeAll(DispatchReplies(d, w))
              && handed == d.Created?
              && (handed ==> sock.inbox == d.rest && simulation != null && fresh(simulation)
                             && simulation.Valid() && simulation.running && simulation.Value() == Initial(d.config, draw))
              && (d.Rejected? ==> simulation == null)
              && (d.NoConfig? ==> simulation == old(simulation))
    {
      hide Encode, Get32, Payload, Parse, ValidateSimulationConfig;
      handed := false;
      ghost var body := sock.inbox;
      var received, config := sock.RecvSimulationConfig();
      if received {
        ParsedConfig(body, config);
        var created := CreateSimulation(config, draw);
        if created {
          SendFrameWithoutPayload(sock, SimCreated);
          handed := true;
        } else {
          var _ := sock.SendError(ERR_INTERNAL, w.cannotCreate);
        }
      } else {
        var _ := sock.SendError(ERR_INVALID_CONFIG, w.badConfig);
      }
    }

    /** The part of server_run that reads the first message of a connection. */
    method Accept(sock: Socket, draw: Draw, w: Wording) returns (handed: bool)
      modifies this, sock
      ensures var d := DispatchOf(old(sock.inbox), old(simulation) != null);
              && sock.outbox == old(sock.outbox) + EncodeAll(DispatchReplies(d, w))
              && handed == HandedOver(d)
              && (handed ==> sock.inbox == d.rest && simulation != null)
              && (d.Rejected? ==> simulation == null)
              && (!d.Created? && !d.Rejected? ==> simulation == old(simulation))
              && (d.Created? ==> simulation != null && fresh(simulation) && simulation.Valid() && simulation.running
                                 && simulation.Value() == Initial(d.config, draw))
    {
      hide Encode, Get32, CreateDispatch, Initial;
      handed := false;
      var ok, kind, _ := sock.RecvMessageHeader();
      if !ok {
        return false;
      }
      if kind == MSG_CREATE_SIM {
        handed := AcceptConfig(sock, draw, w);
      } else if kind == MSG_CONNECT {
        if simulation == null {
          var _ := sock.SendError(ERR_SIM_NOT_FOUND, w.noSimulation);
        } else {
          handed := true;
        }
      } else {
        var _ := sock.SendError(ERR_INTERNAL, w.unexpected);
      }
    }

    /** A whole connection, seen from the server. */
    method ServeConnection(sock: Socket, draw: Draw, w: World)
      modifies this, sock
      ensures sock.outbox == old(sock.outbox)
                             + EncodeAll(ServerFrames(old(sock.inbox), old(simulation) != null, w))
    {
      hide Encode, EncodeAll, Replies, DispatchOf, DispatchReplies, Initial;
      ghost var d := DispatchOf(sock.inbox, simulation != null);
      ghost var first := DispatchReplies(d, w.wording);
      ghost var b0 := sock.outbox;
      var handed := Accept(sock, draw, w.wording);
      if handed {
        ghost var later := Replies(sock.inbox, w, 0);
        EncodeAllPlus(first, later);
        ClientHandlerThread(sock, w);
        assert (b0 + EncodeAll(first)) + EncodeAll(later) == b0 + (EncodeAll(first) + EncodeAll(later));
      } else {
        assert first + [] == first;
      }
    }
  }

  lemma ParsedConfig(b: seq<byte>, c: SimulationConfig)
    requires |b| >= CONFIG_SIZE && Payload(CreateSim(c)) <= b
    ensures Parse(MSG_CREATE_SIM, b[..CONFIG_SIZE]) == CreateSim(c) && b[..CONFIG_SIZE] == Payload(CreateSim(c))
  {
    ParsePayload(CreateSim(c));
    hide Payload, Parse;
    assert b[..CONFIG_SIZE] == Payload(CreateSim(c));
  }

  lemma {:induction false} EncodeAllPlus(fs: seq<Frame>, gs: seq<Frame>)
    ensures EncodeAll(fs + gs) == EncodeAll(fs) + EncodeAll(gs)
  {
    hide Encode;
    if fs == [] {
      assert fs + gs == gs;
    } else {
      EncodeAllPlus(fs[1..], gs);
      assert (fs + gs)[1..] == fs[1..] + gs;
    }
  }
}
