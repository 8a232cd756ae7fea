/** Framing of S21 packets: STX, payload, checksum, ETX. */
module S21Frame {
  import opened MachineInts
  import opened Options

  const STX: byte := 0x02
  const ETX: byte := 0x03
  const ACK: byte := 0x06
  const NAK: byte := 0x15

  const RESERVED: seq<byte> := [0x02, 0x03, 0x06, 0x0A, 0x15]

  datatype FrameError = TooShort | MissingStx | MissingEtx | BadChecksum

  function Total(payload: seq<byte>): nat {
    if payload == [] then 0 else Total(payload[..|payload| - 1]) + payload[|payload| - 1]
  }

  /** The sum of the bytes as an 8-bit register holds it. */
  function Sum(payload: seq<byte>): byte {
    Total(payload) % 0x100
  }

  function Adjust(sum: byte): byte {
    if sum in RESERVED then sum + 2 else sum
  }

  function Checksum(payload: seq<byte>): byte {
    Adjust(Sum(payload))
  }

  function Framed(payload: seq<byte>): seq<byte> {
    [STX] + payload + [Checksum(payload), ETX]
  }

  function Unframed(frame: seq<byte>): Result<seq<byte>, FrameError> {
    if |frame| < 4 then Err(TooShort)
    else if frame[0] != STX then Err(MissingStx)
    else if frame[|frame| - 1] != ETX then Err(MissingEtx)
    else if Checksum(frame[1..|frame| - 2]) != frame[|frame| - 2] then Err(BadChecksum)
    else Ok(frame[1..|frame| - 2])
  }

  method ComputeChecksum(payload: seq<byte>) returns (sum: byte)
    ensures sum == Checksum(payload)
  {
    sum := 0;
    for n := 0 to |payload|
      invariant sum == Sum(payload[..n])
    {
      assert payload[..n + 1][..n] == payload[..n];
      sum := ToByte(sum + payload[n]);
    }
    assert payload[..|payload|] == payload;
    for r := 0 to |RESERVED|
      invariant sum == Sum(payload) && sum !in RESERVED[..r]
    {
      if sum == RESERVED[r] {
        sum := ToByte(sum + 2);
        break;
      }
      assert RESERVED[..r + 1] == RESERVED[..r] + [RESERVED[r]];
    }
  }

  method Encode(payload: seq<byte>) returns (frame: seq<byte>)
    ensures frame == Framed(payload)
  {
    frame := [STX];
    frame := frame + payload;
    var sum := ComputeChecksum(payload);
    frame := frame + [sum];
    frame := frame + [ETX];
  }

  method Decode(frame: seq<byte>) returns (r: Result<seq<byte>, FrameError>)
    ensures r == Unframed(frame)
  {
    if |frame| < 4 {
      return Err(TooShort);
    }
    if frame[0] != STX {
      return Err(MissingStx);
    }
    if frame[|frame| - 1] != ETX {
      return Err(MissingEtx);
    }
    var payload := frame[1..|frame| - 2];
    var checksumByte := frame[|frame| - 2];
    var sum := ComputeChecksum(payload);
    if sum != checksumByte {
      return Err(BadChecksum);
    }
    return Ok(payload);
  }

  // ----- Codec laws -----

  /** No checksum can be mistaken for a control byte. */
  lemma ChecksumAvoidsReserved(payload: seq<byte>)
    ensures Checksum(payload) !in RESERVED
  {
  }

  /** The frame, byte by byte. */
  lemma FramedParts(payload: seq<byte>)
    ensures var f := Framed(payload);
            && |f| == |payload| + 3
            && f[0] == 0x02 && f[|f| - 1] == 0x03 && f[|f| - 2] == Checksum(payload)
            && f[1..|f| - 2] == payload
  {
  }

  /** Decoding accepts exactly the frames of non-empty payloads, and the two undo each
      other. */
  lemma CodecExact(frame: seq<byte>, payload: seq<byte>)
    ensures Unframed(frame) == Ok(payload) <==> payload != [] && frame == Framed(payload)
  {
  }

  // ----- Corruption -----

  lemma {:induction false} TotalUpdate(payload: seq<byte>, i: nat, b: byte)
    requires i < |payload|
    ensures Total(payload[i := b]) == Total(payload) - payload[i] + b
  {
    var n := |payload| - 1;
    if i == n {
      assert payload[i := b][..n] == payload[..n];
    } else {
      TotalUpdate(payload[..n], i, b);
      assert payload[i := b][..n] == payload[..n][i := b];
    }
  }

  /** Two sums that the adjustment maps to the same checksum. */
  predicate Collide(s: byte, t: byte) {
    (s in RESERVED && t == s + 2) || (t in RESERVED && s == t + 2)
  }

  lemma AdjustCollisions(s: byte, t: byte)
    requires s != t
    ensures Adjust(s) == Adjust(t) <==> Collide(s, t)
  {
  }

  /** A payload with one byte changed gets the same checksum exactly when the two sums
      are a reserved value and that value plus two. */
  lemma SingleByteCollision(payload: seq<byte>, i: nat, b: byte)
    requires i < |payload| && b != payload[i]
    ensures Checksum(payload[i := b]) == Checksum(payload) <==> Collide(Sum(payload), Sum(payload[i := b]))
  {
    TotalUpdate(payload, i, b);
    assert Sum(payload[i := b]) != Sum(payload) by {
      var t := Total(payload);
      assert t - payload[i] + b != t && -0x100 < b - payload[i] < 0x100;
    }
    AdjustCollisions(Sum(payload), Sum(payload[i := b]));
  }

  /** One corrupted payload byte on the wire is rejected, except in those collisions. */
  lemma SingleByteCorruption(payload: seq<byte>, i: nat, b: byte)
    requires i < |payload| && b != payload[i]
    ensures Unframed(Framed(payload)[1 + i := b]) ==
            if Collide(Sum(payload), Sum(payload[i := b])) then Ok(payload[i := b]) else Err(BadChecksum)
  {
    var frame := Framed(payload)[1 + i := b];
    assert frame[1..|frame| - 2] == payload[i := b];
    SingleByteCollision(payload, i, b);
  }

  /** The exception is real: 0x0A and 0x0C travel with the same checksum. */
  lemma CollisionExists()
    ensures Unframed(Framed([0x0A])[1 := 0x0C]) == Ok([0x0C])
  {
    assert Total([0x0A]) == 0x0A;
    assert [0x0A][0 := 0x0C] == [0x0C];
    assert Total([0x0C]) == 0x0C;
    SingleByteCorruption([0x0A], 0, 0x0C);
  }

  // ----- The receive stream -----

  const RX_BUFFER: nat := 32

  /** What the receiver keeps of a byte stream: everything up to and including the
      first stop byte, or as much as the buffer holds. */
  function Cut(stream: seq<byte>, stops: set<byte>, room: nat): seq<byte> {
    if stream == [] || room == 0 then []
    else if stream[0] in stops then [stream[0]]
    else [stream[0]] + Cut(stream[1..], stops, room - 1)
  }

  /** The receive buffer starts with the device's ACK, or directly with the frame. */
  function Answer(rx: seq<byte>): Result<seq<byte>, FrameError>
    requires rx != []
  {
    Unframed(if rx[0] == ACK then rx[1..] else rx)
  }

  /** A stop byte at position i and none before it: the cut ends there, buffer allowing. */
  lemma {:induction false} CutAt(stream: seq<byte>, stops: set<byte>, room: nat, i: nat)
    requires i < |stream| && stream[i] in stops
    requires forall j :: 0 <= j < i ==> stream[j] !in stops
    ensures Cut(stream, stops, room) == stream[..if i < room then i + 1 else room]
  {
    if i > 0 && room > 0 {
      CutAt(stream[1..], stops, room - 1, i - 1);
      var n := if i < room then i + 1 else room;
      assert stream[..n] == [stream[0]] + stream[1..][..n - 1];
    }
  }

  predicate HasStop(payload: seq<byte>) {
    ETX in payload || NAK in payload
  }

  /** The bytes a device sends for a reply, and whatever follows on the line. */
  function Reply(payload: seq<byte>, tail: seq<byte>): seq<byte> {
    [ACK] + Framed(payload) + tail
  }

  lemma ReplyPositions(payload: seq<byte>, tail: seq<byte>)
    ensures var s := Reply(payload, tail);
            && |s| == |payload| + 4 + |tail|
            && s[0] == ACK && s[1] == STX
            && s[2 + |payload|] == Checksum(payload) && s[3 + |payload|] == ETX
            && (forall i :: 0 <= i < |payload| ==> s[2 + i] == payload[i])
            && s[..|payload| + 4] == [ACK] + Framed(payload)
  {
  }

  /** Cut by hardware at the first ETX or NAK into a 32-byte buffer and decoded, a reply
      comes out as the payload sent exactly when that has 1 to 28 bytes and contains
      neither of the two stop bytes. The checksum never stops the reception early. */
  lemma StreamRoundTrip(payload: seq<byte>, tail: seq<byte>)
    ensures var rx := Cut(Reply(payload, tail), {ETX, NAK}, RX_BUFFER);
            rx != [] && (Answer(rx) == Ok(payload) <==> 1 <= |payload| <= 28 && !HasStop(payload))
  {
    var s, n := Reply(payload, tail), |payload|;
    ReplyPositions(payload, tail);
    ChecksumAvoidsReserved(payload);
    assert RESERVED[1] == ETX && RESERVED[4] == NAK;
    var i := FirstStop(s, n + 3);
    CutAt(s, {ETX, NAK}, RX_BUFFER, i);
    var rx := Cut(s, {ETX, NAK}, RX_BUFFER);
    if HasStop(payload) {
      var j :| 0 <= j < n && (payload[j] == ETX || payload[j] == NAK);
      assert s[2 + j] == payload[j];
      assert i <= 2 + j;
    } else {
      assert forall j :: 2 <= j < n + 2 ==> s[j] == payload[j - 2];
      assert i == n + 3;
    }
    assert rx[0] == ACK;
    CodecExact(rx[1..], payload);
    FramedParts(payload);
    if i == n + 3 < RX_BUFFER {
      assert rx[1..] == Framed(payload);
    } else {
      assert |rx[1..]| < |Framed(payload)|;
    }
  }

  /** A device that leaves out its ACK is understood as well, a byte earlier. */
  lemma BareReplyRoundTrip(payload: seq<byte>, tail: seq<byte>)
    ensures var rx := Cut(Framed(payload) + tail, {ETX, NAK}, RX_BUFFER);
            rx != [] && (Answer(rx) == Ok(payload) <==> 1 <= |payload| <= 29 && !HasStop(payload))
  {
    var s, n := Framed(payload) + tail, |payload|;
    FramedParts(payload);
    assert s[..n + 3] == Framed(payload);
    assert forall j :: 0 <= j < n ==> s[1 + j] == Framed(payload)[1..n + 1][j] == payload[j];
    ChecksumAvoidsReserved(payload);
    assert RESERVED[1] == ETX && RESERVED[4] == NAK;
    var i := FirstStop(s, n + 2);
    CutAt(s, {ETX, NAK}, RX_BUFFER, i);
    var rx := Cut(s, {ETX, NAK}, RX_BUFFER);
    if HasStop(payload) {
      var j :| 0 <= j < n && (payload[j] == ETX || payload[j] == NAK);
      assert s[1 + j] == payload[j];
      assert i <= 1 + j;
    } else {
      assert forall j :: 1 <= j < n + 1 ==> s[j] == payload[j - 1];
      assert i == n + 2;
    }
    assert rx[0] == STX;
    CodecExact(rx, payload);
    if i == n + 2 < RX_BUFFER {
      assert rx == Framed(payload);
    } else {
      assert |rx| < |Framed(payload)|;
    }
  }

  /** The first ETX or NAK of a stream that has one at position n. */
  lemma {:induction false} FirstStop(s: seq<byte>, n: nat) returns (i: nat)
    requires n < |s| && (s[n] == ETX || s[n] == NAK)
    ensures i <= n && (s[i] == ETX || s[i] == NAK)
    ensures forall j :: 0 <= j < i ==> s[j] != ETX && s[j] != NAK
  {
    i := 0;
    while s[i] != ETX && s[i] != NAK
      invariant i <= n && forall j :: 0 <= j < i ==> s[j] != ETX && s[j] != NAK
      decreases n - i
    {
      i := i + 1;
    }
  }
}
