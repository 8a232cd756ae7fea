/** The D1 and G1 payloads: an operation as the six bytes that set it or report it. */
module S21Presentation {
  import opened AcTypes
  import opened MachineInts
  import opened Options
  import opened S21Frame

  function ModeByte(m: S21Mode): byte {
    match m
    case AutoCooling => 0x30
    case Auto => 0x31
    case Dry => 0x32
    case Cool => 0x33
    case Heat => 0x34
    case FanOnly => 0x36
    case AutoHeating => 0x37
    case Unnamed(raw) => raw
  }

  function ModeOfByte(b: byte): S21Mode {
    if b == 0x30 then AutoCooling
    else if b == 0x31 then S21Mode.Auto
    else if b == 0x32 then S21Mode.Dry
    else if b == 0x33 then S21Mode.Cool
    else if b == 0x34 then S21Mode.Heat
    else if b == 0x36 then S21Mode.FanOnly
    else if b == 0x37 then AutoHeating
    else S21Mode.Unnamed(b)
  }

  function FanByte(f: S21Fan): byte {
    match f
    case Low => 0x33
    case MidLow => 0x34
    case Medium => 0x35
    case MidHigh => 0x36
    case High => 0x37
    case Auto => 0x41
    case Quiet => 0x42
    case Unnamed(raw) => raw
  }

  function FanOfByte(b: byte): S21Fan {
    if b == 0x33 then S21Fan.Low
    else if b == 0x34 then S21Fan.MidLow
    else if b == 0x35 then S21Fan.Medium
    else if b == 0x36 then S21Fan.MidHigh
    else if b == 0x37 then S21Fan.High
    else if b == 0x41 then S21Fan.Auto
    else if b == 0x42 then S21Fan.Quiet
    else S21Fan.Unnamed(b)
  }

  const TEMP_BASE: byte := 0x40

  /** Half-degree steps around 18 degrees, in 8-bit arithmetic. */
  function SetpointToTempByte(setpoint: int16): byte {
    ToByte(TEMP_BASE + ToByte(TruncDiv(setpoint - 1800, 50)))
  }

  function TempByteToSetpoint(b: byte): int16 {
    ToInt16((b - TEMP_BASE) * 50 + 1800)
  }

  datatype SetError = SetpointOutOfRange

  predicate InRange(setpoint: int16) {
    1000 <= setpoint <= 3200
  }

  /** The payload of a set-operation request. */
  function SetOperationPayload(op: Command): Result<seq<byte>, SetError> {
    if !InRange(op.setpoint) then Err(SetpointOutOfRange)
    else Ok(['D' as byte, '1' as byte, (if op.onOff then '1' else '0') as byte,
             ModeByte(op.mode), SetpointToTempByte(op.setpoint), FanByte(op.fan)])
  }

  datatype ParseError = UnexpectedCode

  /** The reading of a get-operation response. The firmware indexes six bytes. */
  function ParseOperation(response: seq<byte>): Result<Command, ParseError>
    requires |response| >= 6
  {
    if response[0] != 'G' as byte || response[1] != '1' as byte then Err(UnexpectedCode)
    else Ok(Command(response[2] != '0' as byte, ModeOfByte(response[3]),
                    TempByteToSetpoint(response[4]), FanOfByte(response[5])))
  }

  /** The request that a get-operation response answers. */
  const GET_OPERATION: seq<byte> := ['F' as byte, '1' as byte]

  /** A setpoint after a trip to the device and back. */
  function Quantised(setpoint: int16): int16 {
    TempByteToSetpoint(SetpointToTempByte(setpoint))
  }

  lemma TempByteRoundTrip(b: byte)
    ensures SetpointToTempByte(TempByteToSetpoint(b)) == b
  {
  }

  lemma StepsFromEighteen(setpoint: int16)
    requires InRange(setpoint)
    ensures var steps := TruncDiv(setpoint - 1800, 50);
            && -16 <= steps <= 28
            && (setpoint >= 1800 ==> 50 * steps <= setpoint - 1800 < 50 * steps + 50)
            && (setpoint < 1800 ==> 50 * steps - 50 < setpoint - 1800 <= 50 * steps)
            && (setpoint - 1800 == 50 * steps <==> setpoint % 50 == 0)
            && SetpointToTempByte(setpoint) == TEMP_BASE + steps
  {
  }

  /** Within the accepted range a trip rounds toward 18 degrees by less than a step,
      is exact on the half-degree grid only, and a second trip changes nothing. */
  lemma QuantisedSetpoint(setpoint: int16)
    ensures Quantised(Quantised(setpoint)) == Quantised(setpoint)
    ensures InRange(setpoint) ==>
              var q := Quantised(setpoint);
              && q % 50 == 0 && InRange(q)
              && (setpoint >= 1800 ==> 1800 <= q <= setpoint < q + 50)
              && (setpoint < 1800 ==> q - 50 < setpoint <= q <= 1800)
              && (q == setpoint <==> setpoint % 50 == 0)
  {
    TempByteRoundTrip(SetpointToTempByte(setpoint));
    if InRange(setpoint) {
      StepsFromEighteen(setpoint);
      hide TruncDiv, SetpointToTempByte;
      assert Quantised(setpoint) == 1800 + 50 * TruncDiv(setpoint - 1800, 50);
    }
  }

  /** The device's version of an operation. */
  function Carried(op: Command): Command {
    op.(setpoint := Quantised(op.setpoint))
  }

  /** What a setter sends back of a reported operation is the byte that was reported, named
      or not. */
  lemma BytesReturn(b: byte)
    ensures ModeByte(ModeOfByte(b)) == b && FanByte(FanOfByte(b)) == b
  {
  }

  const MODE_BYTES: set<byte> := {0x30, 0x31, 0x32, 0x33, 0x34, 0x36, 0x37}

  const FAN_BYTES: set<byte> := {0x33, 0x34, 0x35, 0x36, 0x37, 0x41, 0x42}

  /** The reply of a device: any six-byte operation report without a stop byte, framed, cut
      off the line and parsed, hands the kernel a mode or fan that names nothing exactly
      when the byte is none of the seven, and the kernel then takes it for Auto. */
  lemma UnnamedIffUnlisted(power: byte, mode: byte, temperature: byte, fan: byte, tail: seq<byte>)
    requires var report := ['G' as byte, '1' as byte, power, mode, temperature, fan]; !HasStop(report)
    ensures var report := ['G' as byte, '1' as byte, power, mode, temperature, fan];
            var rx := Cut(Reply(report, tail), {ETX, NAK}, RX_BUFFER);
            && rx != [] && Answer(rx) == Ok(report)
            && ParseOperation(report).Ok?
            && var op := ParseOperation(report).value;
            && (op.mode == S21Mode.Unnamed(mode) <==> mode !in MODE_BYTES)
            && (op.mode.Unnamed? ==> FromS21Mode(op.mode) == OperationalMode.Auto && DirectionHint(op.mode).None?)
            && (op.fan == S21Fan.Unnamed(fan) <==> fan !in FAN_BYTES)
            && (op.fan.Unnamed? ==> FromS21Fan(op.fan) == None)
  {
    StreamRoundTrip(['G' as byte, '1' as byte, power, mode, temperature, fan], tail);
  }

  /** One such reply: a running unit, mode byte 0x35, 22 degrees, fan byte 0x40. */
  lemma UnnamedBytesArrive()
    ensures var report := ['G' as byte, '1' as byte, '1' as byte, 0x35, 0x48, 0x40];
            var rx := Cut(Reply(report, []), {ETX, NAK}, RX_BUFFER);
            && rx != [] && Answer(rx) == Ok(report)
            && ParseOperation(report) == Ok(Command(true, S21Mode.Unnamed(0x35), 2200, S21Fan.Unnamed(0x40)))
            && FromS21Mode(S21Mode.Unnamed(0x35)) == OperationalMode.Auto && FromS21Fan(S21Fan.Unnamed(0x40)) == None
  {
    var report: seq<byte> := ['G' as byte, '1' as byte, '1' as byte, 0x35, 0x48, 0x40];
    assert forall i :: 0 <= i < 6 ==> report[i] > NAK;
    assert !HasStop(report);
    UnnamedIffUnlisted('1' as byte, 0x35, 0x48, 0x40, []);
  }
}
