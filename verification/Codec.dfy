/** The wire format of common/protocol.c: what each kind of message looks like as bytes. */
module Codec {
  import opened Words
  import opened Configuration
  import opened Simulations

  type byte = x: int | 0 <= x < 256

  /** Four bytes that travel as they are: a float in the sender's representation. */
  type Raw = w: seq<byte> | |w| == 4 witness [0, 0, 0, 0]

  /** The characters of a C string, without its terminating zero. */
  type CString = t: seq<byte> | 0 !in t witness []

  /** SimulationStats as it travels. */
  datatype WireStats = WireStats(
    totalArrivals: u32, totalParked: u32, totalLeftNoSpace: u32, totalDeparted: u32,
    currentParked: u32, currentWaiting: u32,
    avgParkingTime: Raw, avgWaitTime: Raw, occupancyRate: Raw)

  /** The messages the two programs exchange. */
  datatype Frame =
    | Connect
    | CreateSim(config: SimulationConfig)
    | SimCreated
    | GetState
    | StateUpdate(state: ParkingState)
    | GetStats
    | StatsUpdate(stats: WireStats)
    | Disconnect
    | Error(code: u32, text: CString)

  const MSG_CONNECT: u32 := 1
  const MSG_CREATE_SIM: u32 := 3
  const MSG_SIM_CREATED: u32 := 4
  const MSG_GET_STATE: u32 := 7
  const MSG_STATE_UPDATE: u32 := 8
  const MSG_GET_STATS: u32 := 9
  const MSG_STATS_UPDATE: u32 := 10
  const MSG_DISCONNECT: u32 := 13
  const MSG_ERROR: u32 := 14

  const ERR_SIM_NOT_FOUND: u32 := 2
  const ERR_INVALID_CONFIG: u32 := 3
  const ERR_INTERNAL: u32 := 6

  const HEADER_SIZE := 8
  const CONFIG_SIZE := 28
  const STATE_SIZE := 24
  const STATS_SIZE := 36
  const TEXT_SIZE := 256
  const ERROR_SIZE := 260

  // ---------------------------------------------------------------- words

  /** htonl, as bytes in memory: most significant byte first. */
  function Put32(x: u32): (b: seq<byte>)
    ensures |b| == 4
  {
    [x / 0x100_0000, x / 0x1_0000 % 0x100, x / 0x100 % 0x100, x % 0x100]
  }

  /** ntohl of the four bytes at a position. */
  function Get32(b: seq<byte>, at: nat): u32
    requires at + 4 <= |b|
  {
    var p: int, q: int, r: int, s: int := b[at], b[at + 1], b[at + 2], b[at + 3];
    p * 0x100_0000 + q * 0x1_0000 + r * 0x100 + s
  }

  lemma Get32OfPut32(x: u32)
    ensures Get32(Put32(x), 0) == x
  {
    var high, middle := x / 0x1_0000, x / 0x100;
    assert high == x / 0x100_0000 * 0x100 + high % 0x100;
    assert middle == high * 0x100 + middle % 0x100;
    assert x == middle * 0x100 + x % 0x100;
  }

  lemma Digits(p: int, q: int, r: int, s: int)
    requires 0 <= p < 0x100 && 0 <= q < 0x100 && 0 <= r < 0x100 && 0 <= s < 0x100
    ensures var x := p * 0x100_0000 + q * 0x1_0000 + r * 0x100 + s;
            x / 0x100_0000 == p && x / 0x1_0000 % 0x100 == q && x / 0x100 % 0x100 == r && x % 0x100 == s
  {
    var x := p * 0x100_0000 + q * 0x1_0000 + r * 0x100 + s;
    assert x / 0x1_0000 == p * 0x100 + q;
    assert x / 0x100 == (p * 0x100 + q) * 0x100 + r;
  }

  lemma Put32OfGet32(b: seq<byte>, at: nat)
    requires at + 4 <= |b|
    ensures Put32(Get32(b, at)) == b[at..at + 4]
  {
    Digits(b[at], b[at + 1], b[at + 2], b[at + 3]);
  }

  function PutWords(ws: seq<u32>): (b: seq<byte>)
    ensures |b| == 4 * |ws|
  {
    if ws == [] then [] else Put32(ws[0]) + PutWords(ws[1..])
  }

  function GetWords(b: seq<byte>, n: nat): (ws: seq<u32>)
    requires 4 * n <= |b|
    ensures |ws| == n && forall i :: 0 <= i < n ==> ws[i] == Get32(b, 4 * i)
  {
    seq(n, i requires 0 <= i < n => Get32(b, 4 * i))
  }

  lemma Get32In(a: seq<byte>, x: u32, rest: seq<byte>)
    ensures Get32(a + Put32(x) + rest, |a|) == x
  {
    Get32OfPut32(x);
    var b := a + Put32(x) + rest;
    assert forall k :: 0 <= k < 4 ==> b[|a| + k] == Put32(x)[k];
  }

  lemma {:induction false} WordAt(ws: seq<u32>, k: nat, rest: seq<byte>)
    requires k < |ws|
    ensures Get32(PutWords(ws) + rest, 4 * k) == ws[k]
  {
    hide Get32, Put32;
    var b, tail := PutWords(ws) + rest, PutWords(ws[1..]) + rest;
    assert b == [] + Put32(ws[0]) + tail;
    if k == 0 {
      Get32In([], ws[0], tail);
    } else {
      WordAt(ws[1..], k - 1, rest);
      Get32Shift(Put32(ws[0]), tail, 4 * (k - 1));
      assert b == Put32(ws[0]) + tail;
    }
  }

  lemma Get32Shift(a: seq<byte>, b: seq<byte>, at: nat)
    requires at + 4 <= |b|
    ensures Get32(a + b, |a| + at) == Get32(b, at)
  {
  }

  /** Words come back, whatever follows them. */
  lemma GetOfPutWords(ws: seq<u32>, rest: seq<byte>)
    ensures GetWords(PutWords(ws) + rest, |ws|) == ws
  {
    hide Get32, PutWords;
    forall k | 0 <= k < |ws|
      ensures GetWords(PutWords(ws) + rest, |ws|)[k] == ws[k]
    {
      WordAt(ws, k, rest);
    }
  }

  /** And bytes come back from words. */
  lemma {:induction false} PutOfGetWords(b: seq<byte>, n: nat)
    requires 4 * n <= |b|
    ensures PutWords(GetWords(b, n)) == b[..4 * n]
  {
    if n > 0 {
      var tail := b[4..];
      PutOfGetWords(tail, n - 1);
      Put32OfGet32(b, 0);
      var ws := GetWords(b, n);
      assert ws[1..] == GetWords(tail, n - 1) by {
        assert forall i :: 0 <= i < n - 1 ==> Get32(tail, 4 * i) == Get32(b, 4 * (i + 1));
      }
      assert tail[..4 * (n - 1)] == b[4..4 * n];
    }
  }

  // ---------------------------------------------------------------- structures

  function ConfigWords(c: SimulationConfig): (ws: seq<u32>)
    ensures |ws| == 7
  {
    [c.parkingSpots, c.mode, c.durationSec, c.minArrivalInterval, c.maxArrivalInterval, c.minParkingTime, c.maxParkingTime]
  }

  function ConfigOf(ws: seq<u32>): (c: SimulationConfig)
    requires |ws| == 7
    ensures ConfigWords(c) == ws
  {
    SimulationConfig(ws[0], ws[1], ws[2], ws[3], ws[4], ws[5], ws[6])
  }

  function StateWords(p: ParkingState): (ws: seq<u32>)
    ensures |ws| == 6
  {
    [p.totalSpots, p.occupiedSpots, p.waitingVehicles, p.elapsedTime, p.remainingTime, p.mode]
  }

  function StateOf(ws: seq<u32>): (p: ParkingState)
    requires |ws| == 6
    ensures StateWords(p) == ws
  {
    ParkingState(ws[0], ws[1], ws[2], ws[3], ws[4], ws[5])
  }

  function CounterWords(t: WireStats): (ws: seq<u32>)
    ensures |ws| == 6
  {
    [t.totalArrivals, t.totalParked, t.totalLeftNoSpace, t.totalDeparted, t.currentParked, t.currentWaiting]
  }

  /** The integers are converted, the floats are copied. */
  function StatsBytes(t: WireStats): (b: seq<byte>)
    ensures |b| == STATS_SIZE
  {
    PutWords(CounterWords(t)) + t.avgParkingTime + t.avgWaitTime + t.occupancyRate
  }

  function StatsOf(b: seq<byte>): WireStats
    requires |b| == STATS_SIZE
  {
    var ws := GetWords(b, 6);
    WireStats(ws[0], ws[1], ws[2], ws[3], ws[4], ws[5], b[24..28], b[28..32], b[32..36])
  }

  lemma StatsRoundTrip(t: WireStats)
    ensures StatsOf(StatsBytes(t)) == t
  {
    var b := StatsBytes(t);
    var raws := t.avgParkingTime + t.avgWaitTime + t.occupancyRate;
    assert b == PutWords(CounterWords(t)) + raws;
    GetOfPutWords(CounterWords(t), raws);
    hide PutWords, GetWords, Get32;
    assert b[24..28] == raws[..4] && b[28..32] == raws[4..8] && b[32..36] == raws[8..];
  }

  lemma StatsBytesRoundTrip(b: seq<byte>)
    requires |b| == STATS_SIZE
    ensures StatsBytes(StatsOf(b)) == b
  {
    PutOfGetWords(b, 6);
    hide PutWords, Get32;
    assert CounterWords(StatsOf(b)) == GetWords(b, 6);
    assert b == b[..24] + b[24..28] + b[28..32] + b[32..36];
  }

  function Zeros(n: nat): (z: seq<byte>)
    ensures |z| == n && forall i :: 0 <= i < n ==> z[i] == 0
  {
    seq(n, _ => 0)
  }

  /** strncpy of at most 255 characters into the 256 of the message, and a final zero. */
  function TextField(text: CString): (b: seq<byte>)
    ensures |b| == TEXT_SIZE && b[TEXT_SIZE - 1] == 0
  {
    var kept := Truncated(text);
    kept + Zeros(TEXT_SIZE - |kept|)
  }

  function Truncated(text: CString): (t: CString)
    ensures |t| <= TEXT_SIZE - 1 && t <= text
  {
    if |text| <= TEXT_SIZE - 1 then text else text[..TEXT_SIZE - 1]
  }

  /** The C string in a field: what precedes its first zero. */
  function TextOf(b: seq<byte>): (t: CString)
    ensures t <= b
  {
    if b == [] || b[0] == 0 then [] else [b[0]] + TextOf(b[1..])
  }

  /** The characters up to the first zero, if they are followed by one, are the string. */
  lemma {:induction false} TextOfPadded(text: CString, padding: seq<byte>)
    requires padding != [] && padding[0] == 0
    ensures TextOf(text + padding) == text
  {
    if text != [] {
      var tail: CString := text[1..];
      TextOfPadded(tail, padding);
      assert (text + padding)[1..] == tail + padding;
    } else {
      assert text + padding == padding;
    }
  }

  lemma TextRoundTrip(text: CString)
    ensures TextOf(TextField(text)) == Truncated(text)
  {
    var kept := Truncated(text);
    TextOfPadded(kept, Zeros(TEXT_SIZE - |kept|));
  }

  // ---------------------------------------------------------------- frames

  function Kind(f: Frame): u32 {
    match f
    case Connect => MSG_CONNECT
    case CreateSim(_) => MSG_CREATE_SIM
    case SimCreated => MSG_SIM_CREATED
    case GetState => MSG_GET_STATE
    case StateUpdate(_) => MSG_STATE_UPDATE
    case GetStats => MSG_GET_STATS
    case StatsUpdate(_) => MSG_STATS_UPDATE
    case Disconnect => MSG_DISCONNECT
    case Error(_, _) => MSG_ERROR
  }

  function Payload(f: Frame): (b: seq<byte>)
    ensures |b| == PayloadSize(Kind(f))
  {
    match f
    case CreateSim(c) => PutWords(ConfigWords(c))
    case StateUpdate(p) => PutWords(StateWords(p))
    case StatsUpdate(t) => StatsBytes(t)
    case Error(code, text) => Put32(code) + TextField(text)
    case _ => []
  }

  function HeaderBytes(kind: u32, length: u32): (b: seq<byte>)
    ensures |b| == HEADER_SIZE
  {
    Put32(kind) + Put32(length)
  }

  function Encode(f: Frame): (b: seq<byte>)
    ensures |b| >= HEADER_SIZE
  {
    HeaderBytes(Kind(f), |Payload(f)|) + Payload(f)
  }

  function EncodeAll(fs: seq<Frame>): seq<byte> {
    if fs == [] then [] else Encode(fs[0]) + EncodeAll(fs[1..])
  }

  /** How many bytes a receiver takes after a header of the given type; it never looks at the
      length the header announces. */
  function PayloadSize(kind: u32): nat {
    if kind == MSG_CREATE_SIM then CONFIG_SIZE
    else if kind == MSG_STATE_UPDATE then STATE_SIZE
    else if kind == MSG_STATS_UPDATE then STATS_SIZE
    else if kind == MSG_ERROR then ERROR_SIZE
    else 0
  }

  predicate Known(kind: u32) {
    kind in {MSG_CONNECT, MSG_CREATE_SIM, MSG_SIM_CREATED, MSG_GET_STATE, MSG_STATE_UPDATE,
             MSG_GET_STATS, MSG_STATS_UPDATE, MSG_DISCONNECT, MSG_ERROR}
  }

  /** What the receiver of the given type makes of a payload. */
  function Parse(kind: u32, payload: seq<byte>): (f: Frame)
    requires Known(kind) && |payload| == PayloadSize(kind)
    ensures Kind(f) == kind
  {
    if kind == MSG_CREATE_SIM then CreateSim(ConfigOf(GetWords(payload, 7)))
    else if kind == MSG_STATE_UPDATE then StateUpdate(StateOf(GetWords(payload, 6)))
    else if kind == MSG_STATS_UPDATE then StatsUpdate(StatsOf(payload))
    else if kind == MSG_ERROR then Error(Get32(payload, 0), ErrorText(payload[4..]))
    else if kind == MSG_CONNECT then Connect
    else if kind == MSG_SIM_CREATED then SimCreated
    else if kind == MSG_GET_STATE then GetState
    else if kind == MSG_GET_STATS then GetStats
    else Disconnect
  }

  /** recv_error puts a zero at the end of the field before anybody reads it as a string. */
  function ErrorText(field: seq<byte>): CString
    requires |field| == TEXT_SIZE
  {
    TextOf(field[TEXT_SIZE - 1 := 0])
  }

  /** Read a header, then a payload by its type: the frame and what remains, or nothing if the
      type is unknown or the stream ends too early. */
  function ReadFrame(b: seq<byte>): (r: Option<(Frame, seq<byte>)>)
    ensures r.Some? ==> |r.value.1| < |b|
  {
    if |b| < HEADER_SIZE || !Known(Get32(b, 0)) || |b| < HEADER_SIZE + PayloadSize(Get32(b, 0)) then None
    else
      var size := HEADER_SIZE + PayloadSize(Get32(b, 0));
      Some((Parse(Get32(b, 0), b[HEADER_SIZE..size]), b[size..]))
  }

  function ReadFrames(b: seq<byte>, n: nat): Option<(seq<Frame>, seq<byte>)> {
    if n == 0 then Some(([], b)) else
    match ReadFrame(b)
    case None => None
    case Some((f, rest)) =>
      match ReadFrames(rest, n - 1)
      case None => None
      case Some((fs, end)) => Some(([f] + fs, end))
  }

  /** What a frame is after its journey: the text of an error is cut at 255 characters. */
  function Delivered(f: Frame): Frame {
    if f.Error? then Error(f.code, Truncated(f.text)) else f
  }

  function DeliveredAll(fs: seq<Frame>): (r: seq<Frame>)
    ensures |r| == |fs| && forall i :: 0 <= i < |fs| ==> r[i] == Delivered(fs[i])
  {
    seq(|fs|, i requires 0 <= i < |fs| => Delivered(fs[i]))
  }

  // ---------------------------------------------------------------- round trips

  /** The length a header announces is the number of bytes its receiver takes. */
  lemma AnnouncedIsTaken(f: Frame)
    ensures |Payload(f)| == PayloadSize(Kind(f)) && Known(Kind(f))
    ensures Get32(Encode(f), 0) == Kind(f) && Get32(Encode(f), 4) == PayloadSize(Kind(f))
  {
    var p := Payload(f);
    hide Get32;
    Get32In([], Kind(f), Put32(|p|) + p);
    Get32In(Put32(Kind(f)), |p|, p);
    assert [] + Put32(Kind(f)) + (Put32(|p|) + p) == Encode(f);
  }

  lemma ParsePayload(f: Frame)
    ensures |Payload(f)| == PayloadSize(Kind(f)) && Parse(Kind(f), Payload(f)) == Delivered(f)
  {
    match f
    case CreateSim(c) =>
      GetOfPutWords(ConfigWords(c), []);
      assert PutWords(ConfigWords(c)) + [] == PutWords(ConfigWords(c));
    case StateUpdate(p) =>
      GetOfPutWords(StateWords(p), []);
      assert PutWords(StateWords(p)) + [] == PutWords(StateWords(p));
    case StatsUpdate(t) => StatsRoundTrip(t);
    case Error(code, text) => ParseError(code, text);
    case _ =>
  }

  lemma ParseError(code: u32, text: CString)
    ensures |Payload(Error(code, text))| == ERROR_SIZE
    ensures Parse(MSG_ERROR, Payload(Error(code, text))) == Error(code, Truncated(text))
  {
    hide Get32, Put32, TextOf, TextField;
    TextRoundTrip(text);
    var field, p := TextField(text), Payload(Error(code, text));
    Get32In([], code, field);
    assert [] + Put32(code) + field == p;
    assert p[4..] == field && field[TEXT_SIZE - 1 := 0] == field;
  }

  lemma EncodeParts(f: Frame, rest: seq<byte>)
    ensures var b := Encode(f) + rest;
            && |b| >= HEADER_SIZE + |Payload(f)|
            && Get32(b, 0) == Kind(f)
            && b[HEADER_SIZE..HEADER_SIZE + |Payload(f)|] == Payload(f)
            && b[HEADER_SIZE + |Payload(f)|..] == rest
  {
    hide Payload;
    var p := Payload(f);
    var after := Put32(|p|) + p + rest;
    Get32In([], Kind(f), after);
    assert [] + Put32(Kind(f)) + after == Encode(f) + rest;
  }

  /** A frame is read back as it was written, and the bytes after it are left alone. */
  lemma FrameRoundTrip(f: Frame, rest: seq<byte>)
    ensures ReadFrame(Encode(f) + rest) == Some((Delivered(f), rest))
  {
    EncodeParts(f, rest);
    AnnouncedIsTaken(f);
    ParsePayload(f);
    hide Encode, Payload, Parse, Get32, Kind, PayloadSize;
  }

  lemma ReadFramesCons(b: seq<byte>, n: nat, f: Frame, rest: seq<byte>, fs: seq<Frame>, end: seq<byte>)
    requires ReadFrame(b) == Some((f, rest)) && ReadFrames(rest, n) == Some((fs, end))
    ensures ReadFrames(b, n + 1) == Some(([f] + fs, end))
  {
    hide ReadFrame;
  }

  /** So is a list of frames written one after the other. */
  lemma {:induction false} FramesRoundTrip(fs: seq<Frame>, rest: seq<byte>)
    ensures ReadFrames(EncodeAll(fs) + rest, |fs|) == Some((DeliveredAll(fs), rest))
  {
    hide Encode, ReadFrame, Delivered;
    if fs == [] {
      assert EncodeAll(fs) + rest == rest;
    } else {
      hide ReadFrames;
      var b, more, end := EncodeAll(fs) + rest, EncodeAll(fs[1..]) + rest, DeliveredAll(fs[1..]);
      assert b == Encode(fs[0]) + more;
      FrameRoundTrip(fs[0], more);
      FramesRoundTrip(fs[1..], rest);
      ReadFramesCons(b, |fs| - 1, Delivered(fs[0]), more, end, rest);
      assert [Delivered(fs[0])] + end == DeliveredAll(fs);
    }
  }

  /** From the given position on there are only zeros. */
  predicate ZeroFrom(b: seq<byte>, from: nat) {
    forall i :: from <= i < |b| ==> b[i] == 0
  }

  /** The other way round, what is read spells the bytes it was read from just when the header
      announced the right length and an error's text was padded with zeros; nothing checks either. */
  lemma ReadSpellsTheBytes(b: seq<byte>)
    requires ReadFrame(b).Some?
    ensures var (f, rest) := ReadFrame(b).value;
            Encode(f) + rest == b
            <==> Get32(b, 4) == PayloadSize(Kind(f))
                 && (f.Error? ==> ZeroFrom(b[HEADER_SIZE..HEADER_SIZE + ERROR_SIZE], 4 + |f.text|))
  {
    var (f, rest) := ReadFrame(b).value;
    var size := PayloadSize(Kind(f));
    PayloadSpellsTheBytes(Kind(f), b[HEADER_SIZE..HEADER_SIZE + size]);
    AnnouncedIsTaken(f);
    HeaderSpellsTheBytes(b, Kind(f), size);
    hide Payload, Parse, Get32, Put32, Kind, HeaderBytes, ZeroFrom;
    Splits(b, HeaderBytes(Kind(f), size), Payload(f), rest);
  }

  lemma Splits(b: seq<byte>, head: seq<byte>, middle: seq<byte>, rest: seq<byte>)
    requires |b| == |head| + |middle| + |rest| && b[|head| + |middle|..] == rest
    ensures head + middle + rest == b <==> head == b[..|head|] && middle == b[|head|..|head| + |middle|]
  {
  }

  lemma HeaderSpellsTheBytes(b: seq<byte>, kind: u32, size: u32)
    requires |b| >= HEADER_SIZE && Get32(b, 0) == kind
    ensures HeaderBytes(kind, size) == b[..HEADER_SIZE] <==> Get32(b, 4) == size
  {
    Put32OfGet32(b, 0);
    Put32OfGet32(b, 4);
    Get32OfPut32(size);
    hide Get32, Put32;
    assert b[..HEADER_SIZE] == b[0..4] + b[4..8];
    if HeaderBytes(kind, size) == b[..HEADER_SIZE] {
      assert Put32(size) == (Put32(kind) + Put32(size))[4..8] == b[4..8];
    }
  }

  lemma PayloadSpellsTheBytes(kind: u32, p: seq<byte>)
    requires Known(kind) && |p| == PayloadSize(kind)
    ensures var f := Parse(kind, p);
            Payload(f) == p <==> (f.Error? ==> ZeroFrom(p, 4 + |f.text|))
  {
    if kind == MSG_CREATE_SIM {
      PutOfGetWords(p, 7);
      assert p[..28] == p;
    } else if kind == MSG_STATE_UPDATE {
      PutOfGetWords(p, 6);
      assert p[..24] == p;
    } else if kind == MSG_STATS_UPDATE {
      StatsBytesRoundTrip(p);
    } else if kind == MSG_ERROR {
      ErrorSpellsTheBytes(p);
    }
  }

  lemma ErrorSpellsTheBytes(p: seq<byte>)
    requires |p| == ERROR_SIZE
    ensures var f := Parse(MSG_ERROR, p);
            Payload(f) == p <==> ZeroFrom(p, 4 + |f.text|)
  {
    ErrorParts(p);
    FieldSpellsTheBytes(p[4..]);
    ZerosBehindTheCode(p, |ErrorText(p[4..])|);
    SameTail(p[0..4], TextField(ErrorText(p[4..])), p);
    hide Get32, Put32, ErrorText, TextField, ZeroFrom, Parse, Payload;
  }

  lemma ErrorParts(p: seq<byte>)
    requires |p| == ERROR_SIZE
    ensures Parse(MSG_ERROR, p) == Error(Get32(p, 0), ErrorText(p[4..]))
    ensures Payload(Parse(MSG_ERROR, p)) == p[0..4] + TextField(ErrorText(p[4..]))
  {
    Put32OfGet32(p, 0);
    hide Get32, Put32, ErrorText, TextField;
  }

  lemma SameTail(head: seq<byte>, tail: seq<byte>, p: seq<byte>)
    requires head <= p
    ensures head + tail == p <==> tail == p[|head|..]
  {
  }

  lemma ZerosBehindTheCode(p: seq<byte>, n: nat)
    requires |p| >= 4
    ensures ZeroFrom(p, 4 + n) <==> ZeroFrom(p[4..], n)
  {
  }

  lemma FieldSpellsTheBytes(field: seq<byte>)
    requires |field| == TEXT_SIZE
    ensures TextField(ErrorText(field)) == field <==> ZeroFrom(field, |ErrorText(field)|)
  {
    var text := ErrorText(field);
    TerminatedText(field[TEXT_SIZE - 1 := 0]);
    hide TextOf;
    assert Truncated(text) == text;
    var padded := TextField(text);
    assert forall i :: 0 <= i < |text| ==> padded[i] == text[i] == field[i];
    assert forall i :: |text| <= i < TEXT_SIZE ==> padded[i] == 0;
  }

  /** In a field with a zero at its end the string is shorter than the field. */
  lemma TerminatedText(b: seq<byte>)
    requires b != [] && b[|b| - 1] == 0
    ensures |TextOf(b)| < |b|
  {
  }
}
