/** The send and receive functions of common/protocol.c over one end of a connection. */
module Sockets {
  import opened Words
  import opened Configuration
  import opened Simulations
  import opened Codec

  /** One end of a connection: the bytes still to come from the peer until it closes, and the
      bytes sent so far. Receiving waits for all bytes asked for, and gets fewer only when the
      peer has closed. */
  class Socket {
    var inbox: seq<byte>
    var outbox: seq<byte>

    constructor (incoming: seq<byte>)
      ensures inbox == incoming && outbox == []
    {
      inbox := incoming;
      outbox := [];
    }

    method Send(data: seq<byte>)
      modifies this`outbox
      ensures outbox == old(outbox) + data
    {
      outbox := outbox + data;
    }

    method Recv(n: nat) returns (data: seq<byte>)
      modifies this`inbox
      ensures old(inbox) == data + inbox
      ensures |data| == n || (|data| < n && inbox == [])
    {
      var taken := if n <= |inbox| then n else |inbox|;
      data := inbox[..taken];
      inbox := inbox[taken..];
    }

    // ---------------------------------------------------------------- headers and data

    method SendMessageHeader(kind: u32, length: u32)
      modifies this`outbox
      ensures outbox == old(outbox) + HeaderBytes(kind, length)
    {
      Send(Put32(kind) + Put32(length));
    }

    method RecvMessageHeader() returns (ok: bool, kind: u32, length: u32)
      modifies this`inbox
      ensures ok <==> |old(inbox)| >= HEADER_SIZE
      ensures ok ==> kind == Get32(old(inbox), 0) && length == Get32(old(inbox), 4) && inbox == old(inbox)[HEADER_SIZE..]
      ensures !ok ==> inbox == []
    {
      kind, length := 0, 0;
      var data := Recv(HEADER_SIZE);
      ok := |data| == HEADER_SIZE;
      if ok {
        kind, length := Get32(data, 0), Get32(data, 4);
      }
    }

    method SendData(data: seq<byte>) returns (ok: bool)
      modifies this`outbox
      ensures ok <==> data != []
      ensures outbox == old(outbox) + data
    {
      if data == [] {
        return false;
      }
      Send(data);
      ok := true;
    }

    method RecvData(n: nat) returns (ok: bool, data: seq<byte>)
      modifies this`inbox
      ensures ok <==> 0 < n <= |old(inbox)|
      ensures ok ==> data == old(inbox)[..n] && inbox == old(inbox)[n..]
      ensures !ok && n > 0 ==> inbox == []
      ensures n == 0 ==> inbox == old(inbox)
    {
      if n == 0 {
        return false, [];
      }
      data := Recv(n);
      ok := |data| == n;
    }

    // ---------------------------------------------------------------- structures

    method SendSimulationConfig(config: SimulationConfig) returns (ok: bool)
      modifies this`outbox
      ensures ok && outbox == old(outbox) + Encode(CreateSim(config))
    {
      hide Put32, PutWords;
      var net := PutWords(ConfigWords(config));
      SendMessageHeader(MSG_CREATE_SIM, CONFIG_SIZE);
      ok := SendData(net);
    }

    /** On success the structure is the one whose encoding came first. */
    method RecvSimulationConfig() returns (ok: bool, config: SimulationConfig)
      modifies this`inbox
      ensures ok <==> |old(inbox)| >= CONFIG_SIZE
      ensures ok ==> old(inbox) == Payload(CreateSim(config)) + inbox
      ensures !ok ==> inbox == []
    {
      config := SimulationConfig(0, 0, 0, 0, 0, 0, 0);
      var net;
      ok, net := RecvData(CONFIG_SIZE);
      if ok {
        config := ConfigOf(GetWords(net, 7));
        PutOfGetWords(net, 7);
        assert net[..28] == net;
      }
    }

    method SendParkingState(state: ParkingState) returns (ok: bool)
      modifies this`outbox
      ensures ok && outbox == old(outbox) + Encode(StateUpdate(state))
    {
      hide Put32, PutWords;
      var net := PutWords(StateWords(state));
      SendMessageHeader(MSG_STATE_UPDATE, STATE_SIZE);
      ok := SendData(net);
    }

    method RecvParkingState() returns (ok: bool, state: ParkingState)
      modifies this`inbox
      ensures ok <==> |old(inbox)| >= STATE_SIZE
      ensures ok ==> old(inbox) == Payload(StateUpdate(state)) + inbox
      ensures !ok ==> inbox == []
    {
      state := ParkingState(0, 0, 0, 0, 0, 0);
      var net;
      ok, net := RecvData(STATE_SIZE);
      if ok {
        state := StateOf(GetWords(net, 6));
        PutOfGetWords(net, 6);
        assert net[..24] == net;
      }
    }

    method SendStatistics(stats: WireStats) returns (ok: bool)
      modifies this`outbox
      ensures ok && outbox == old(outbox) + Encode(StatsUpdate(stats))
    {
      hide Put32, PutWords, HeaderBytes;
      var net := PutWords(CounterWords(stats));
      net := net + stats.avgParkingTime;
      net := net + stats.avgWaitTime;
      net := net + stats.occupancyRate;
      SendMessageHeader(MSG_STATS_UPDATE, STATS_SIZE);
      ok := SendData(net);
    }

    method RecvStatistics() returns (ok: bool, stats: WireStats)
      modifies this`inbox
      ensures ok <==> |old(inbox)| >= STATS_SIZE
      ensures ok ==> old(inbox) == Payload(StatsUpdate(stats)) + inbox
      ensures !ok ==> inbox == []
    {
      var zero: Raw := [0, 0, 0, 0];
      stats := WireStats(0, 0, 0, 0, 0, 0, zero, zero, zero);
      var net;
      ok, net := RecvData(STATS_SIZE);
      if ok {
        stats := StatsOf(net);
        StatsBytesRoundTrip(net);
      }
    }

    method SendError(code: u32, message: CString) returns (ok: bool)
      modifies this`outbox
      ensures ok && outbox == old(outbox) + Encode(Error(code, message))
    {
      hide Put32, TextField, HeaderBytes;
      var text := TextField(message);
      SendMessageHeader(MSG_ERROR, ERROR_SIZE);
      ok := SendData(Put32(code) + text);
    }

    /** The text is cut at the first zero; the rest of the field is lost. */
    method RecvError() returns (ok: bool, code: u32, text: CString)
      modifies this`inbox
      ensures ok <==> |old(inbox)| >= ERROR_SIZE
      ensures ok ==> Parse(MSG_ERROR, old(inbox)[..ERROR_SIZE]) == Error(code, text) && inbox == old(inbox)[ERROR_SIZE..]
      ensures !ok ==> inbox == []
    {
      code, text := 0, [];
      var data;
      ok, data := RecvData(ERROR_SIZE);
      if ok {
        var field := data[4..];
        field := field[TEXT_SIZE - 1 := 0];
        code, text := Get32(data, 0), TextOf(field);
      }
    }
  }
}
