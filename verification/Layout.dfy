/** The bytes on the wire, spelled out: types and lengths as numbers, and every field by its offset
    and value, most significant byte first. */
module Layout {
  import opened Words
  import opened Configuration
  import opened Simulations
  import opened Codec

  /** The four bytes at the given offset are those of the number, the most significant first. */
  predicate BigEndian(b: seq<byte>, at: nat, x: u32) {
    && at + 4 <= |b|
    && b[at] == x / 0x100_0000 && b[at + 1] == x / 0x1_0000 % 0x100 && b[at + 2] == x / 0x100 % 0x100 && b[at + 3] == x % 0x100
  }

  lemma BigEndianIn(head: seq<byte>, x: u32, rest: seq<byte>)
    ensures BigEndian(head + Put32(x) + rest, |head|, x)
  {
    var b := head + Put32(x) + rest;
    assert forall k :: 0 <= k < 4 ==> b[|head| + k] == Put32(x)[k];
  }

  /** The number that four bytes spell, the most significant first. */
  function Number(b: seq<byte>, at: nat): (x: u32)
    requires at + 4 <= |b|
  {
    var p: int, q: int, r: int, s: int := b[at], b[at + 1], b[at + 2], b[at + 3];
    ((p * 256 + q) * 256 + r) * 256 + s
  }

  lemma Get32IsNumber(b: seq<byte>, at: nat)
    requires at + 4 <= |b|
    ensures Get32(b, at) == Number(b, at)
  {
  }

  lemma {:induction false} WordIsBigEndian(head: seq<byte>, ws: seq<u32>, k: nat, rest: seq<byte>)
    requires k < |ws|
    ensures BigEndian(head + PutWords(ws) + rest, |head| + 4 * k, ws[k])
    decreases k
  {
    hide BigEndian, Put32;
    var b, tail := head + PutWords(ws) + rest, PutWords(ws[1..]) + rest;
    if k == 0 {
      BigEndianIn(head, ws[0], tail);
      assert b == head + Put32(ws[0]) + tail;
    } else {
      WordIsBigEndian(head + Put32(ws[0]), ws[1..], k - 1, rest);
      assert b == (head + Put32(ws[0])) + PutWords(ws[1..]) + rest;
    }
  }

  /** Every header: three zeros and the type, two zeros and the length in two bytes. */
  lemma HeaderLayout(f: Frame)
    ensures Encode(f)[..8] ==
      match f
      case Connect => [0, 0, 0, 1, 0, 0, 0, 0]
      case CreateSim(_) => [0, 0, 0, 3, 0, 0, 0, 28]
      case SimCreated => [0, 0, 0, 4, 0, 0, 0, 0]
      case GetState => [0, 0, 0, 7, 0, 0, 0, 0]
      case StateUpdate(_) => [0, 0, 0, 8, 0, 0, 0, 24]
      case GetStats => [0, 0, 0, 9, 0, 0, 0, 0]
      case StatsUpdate(_) => [0, 0, 0, 10, 0, 0, 0, 36]
      case Disconnect => [0, 0, 0, 13, 0, 0, 0, 0]
      case Error(_, _) => [0, 0, 0, 14, 0, 0, 1, 4]
    ensures |Encode(f)| == 8 + 256 * Encode(f)[6] as int + Encode(f)[7] as int
  {
    hide Payload;
  }

  lemma ConfigLayout(c: SimulationConfig)
    ensures var b := Encode(CreateSim(c));
            && |b| == 36 && BigEndian(b, 8, c.parkingSpots) && BigEndian(b, 12, c.mode) && BigEndian(b, 16, c.durationSec)
            && BigEndian(b, 20, c.minArrivalInterval) && BigEndian(b, 24, c.maxArrivalInterval)
            && BigEndian(b, 28, c.minParkingTime) && BigEndian(b, 32, c.maxParkingTime)
  {
    hide BigEndian, Put32, PutWords;
    var head, ws := HeaderBytes(3, 28), ConfigWords(c);
    assert Encode(CreateSim(c)) == head + PutWords(ws) + [];
    WordIsBigEndian(head, ws, 0, []);
    WordIsBigEndian(head, ws, 1, []);
    WordIsBigEndian(head, ws, 2, []);
    WordIsBigEndian(head, ws, 3, []);
    WordIsBigEndian(head, ws, 4, []);
    WordIsBigEndian(head, ws, 5, []);
    WordIsBigEndian(head, ws, 6, []);
  }

  lemma StateLayout(p: ParkingState)
    ensures var b := Encode(StateUpdate(p));
            && |b| == 32 && BigEndian(b, 8, p.totalSpots) && BigEndian(b, 12, p.occupiedSpots)
            && BigEndian(b, 16, p.waitingVehicles) && BigEndian(b, 20, p.elapsedTime)
            && BigEndian(b, 24, p.remainingTime) && BigEndian(b, 28, p.mode)
  {
    hide BigEndian, Put32, PutWords;
    var head, ws := HeaderBytes(8, 24), StateWords(p);
    assert Encode(StateUpdate(p)) == head + PutWords(ws) + [];
    WordIsBigEndian(head, ws, 0, []);
    WordIsBigEndian(head, ws, 1, []);
    WordIsBigEndian(head, ws, 2, []);
    WordIsBigEndian(head, ws, 3, []);
    WordIsBigEndian(head, ws, 4, []);
    WordIsBigEndian(head, ws, 5, []);
  }

  /** The floats follow the counters byte by byte. */
  lemma StatisticsLayout(t: WireStats)
    ensures var b := Encode(StatsUpdate(t));
            && |b| == 44 && BigEndian(b, 8, t.totalArrivals) && BigEndian(b, 12, t.totalParked)
            && BigEndian(b, 16, t.totalLeftNoSpace) && BigEndian(b, 20, t.totalDeparted)
            && BigEndian(b, 24, t.currentParked) && BigEndian(b, 28, t.currentWaiting)
            && b[32..36] == t.avgParkingTime && b[36..40] == t.avgWaitTime && b[40..44] == t.occupancyRate
  {
    hide BigEndian, Put32, PutWords;
    var head, ws := HeaderBytes(10, 36), CounterWords(t);
    var rest := t.avgParkingTime + t.avgWaitTime + t.occupancyRate;
    assert Encode(StatsUpdate(t)) == head + PutWords(ws) + rest;
    WordIsBigEndian(head, ws, 0, rest);
    WordIsBigEndian(head, ws, 1, rest);
    WordIsBigEndian(head, ws, 2, rest);
    WordIsBigEndian(head, ws, 3, rest);
    WordIsBigEndian(head, ws, 4, rest);
    WordIsBigEndian(head, ws, 5, rest);
    var b := head + PutWords(ws) + rest;
    assert b[32..36] == rest[..4] && b[36..40] == rest[4..8] && b[40..44] == rest[8..];
  }

  lemma TextFieldLayout(text: CString)
    ensures forall i :: 0 <= i < 256 ==> TextField(text)[i] == if i < 255 && i < |text| then text[i] else 0
  {
  }

  /** The text follows the code, its first 255 characters at most, and zeros fill the rest. */
  lemma ErrorLayout(code: u32, text: CString)
    ensures var b := Encode(Error(code, text));
            && |b| == 268 && BigEndian(b, 8, code)
            && forall i :: 0 <= i < 256 ==> b[12..][i] == if i < 255 && i < |text| then text[i] else 0
  {
    hide BigEndian, Put32, HeaderBytes, TextField;
    TextFieldLayout(text);
    var head, field := HeaderBytes(14, 260), TextField(text);
    assert Encode(Error(code, text)) == head + Put32(code) + field;
    BigEndianIn(head, code, field);
    assert (head + Put32(code) + field)[12..] == field;
  }
}
