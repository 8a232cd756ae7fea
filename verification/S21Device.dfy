/** The air conditioner at the other end of the line, in the numbers of the protocol: what
    it takes for a command, what it then does, and what it reports. */
module S21Device {
  import opened AcTypes
  import opened FanMapping
  import opened MachineInts
  import opened Options
  import opened S21DataLinkUart
  import opened S21Frame
  import opened S21Presentation

  /** The target temperature counts half degrees from 18. */
  datatype Unit = Unit(on: bool, mode: OperationalMode, halfDegrees: int, fan: FanSpeed)

  datatype Reaction = Refuses | Obeys | Reports(payload: seq<byte>)

  function ModeNumbered(b: byte): Option<OperationalMode> {
    if b == 0x31 then Some(OperationalMode.Auto)
    else if b == 0x32 then Some(OperationalMode.Dry)
    else if b == 0x33 then Some(OperationalMode.Cool)
    else if b == 0x34 then Some(OperationalMode.Heat)
    else if b == 0x36 then Some(OperationalMode.FanOnly)
    else None
  }

  function ModeNumber(m: OperationalMode): byte {
    match m
    case Auto => 0x31
    case Dry => 0x32
    case Cool => 0x33
    case Heat => 0x34
    case FanOnly => 0x36
  }

  /** 0x41 is Auto, 0x42 the quiet level, and 0x33 to 0x37 the levels above it. */
  function FanNumbered(b: byte): Option<FanSpeed> {
    if b == 0x41 then Some(None)
    else if b == 0x42 then Some(Some(1))
    else if 0x33 <= b <= 0x37 then Some(Some(b - 0x31))
    else None
  }

  function FanNumber(fan: FanSpeed): byte {
    match fan
    case None => 0x41
    case Some(level) => if level == 1 then 0x42 else level + 0x31
  }

  /** A set-operation request has six bytes and starts with D1. */
  predicate IsCommand(request: seq<byte>) {
    && |request| == 6 && request[0] == 0x44 && request[1] == 0x31
    && (request[2] == 0x30 || request[2] == 0x31)
    && ModeNumbered(request[3]).Some? && FanNumbered(request[5]).Some?
  }

  function Commanded(request: seq<byte>): Unit
    requires IsCommand(request)
  {
    Unit(request[2] == 0x31, ModeNumbered(request[3]).value, request[4] as int - 0x40, FanNumbered(request[5]).value)
  }

  /** A get-operation request is F1, and nothing else is answered by a G1 report. */
  function Serve(d: Unit, request: seq<byte>): (Unit, Reaction) {
    if IsCommand(request) then (Commanded(request), Obeys)
    else if request == [0x46, 0x31] && -0x40 <= d.halfDegrees < 0xC0 then
      (d, Reports([0x47, 0x31, if d.on then 0x31 else 0x30,
                   ModeNumber(d.mode), d.halfDegrees + 0x40, FanNumber(d.fan)]))
    else (d, Refuses)
  }

  /** Whatever the unit did before: the command the bridge composes makes it do what was
      asked, at the half degree next to the setpoint on the side of 18 degrees. */
  lemma CommandObeyed(d: Unit, on: bool, m: OperationalMode, setpoint: int16, fan: FanSpeed)
    requires 1000 <= setpoint <= 3200
    ensures var payload := SetOperationPayload(Command(on, ToS21Mode(m), setpoint, ToS21Fan(fan)));
            && payload.Ok?
            && var (after, reaction) := Serve(d, payload.value);
            && reaction == Obeys
            && after == Unit(on, m, after.halfDegrees, fan) && -16 <= after.halfDegrees <= 28
            && var target := 1800 + 50 * after.halfDegrees;
            && (setpoint >= 1800 ==> target <= setpoint < target + 50)
            && (setpoint < 1800 ==> target - 50 < setpoint <= target)
  {
    StepsFromEighteen(setpoint);
  }

  /** Any other setpoint is refused before anything is sent. */
  lemma OutOfRangeNotSent(op: Command)
    ensures SetOperationPayload(op) == Err(SetpointOutOfRange) <==> op.setpoint < 1000 || op.setpoint > 3200
  {
  }

  /** A unit asked for its operation reports what it does, and the bridge reads that. */
  lemma ReportRead(d: Unit)
    requires -16 <= d.halfDegrees <= 28
    ensures Serve(d, GET_OPERATION).0 == d && Serve(d, GET_OPERATION).1.Reports?
    ensures var report := Serve(d, GET_OPERATION).1.payload;
            && |report| == 6 && !HasStop(report)
            && ParseOperation(report) ==
               Ok(Command(d.on, ToS21Mode(d.mode), 1800 + 50 * d.halfDegrees, ToS21Fan(d.fan)))
  {
    var report := Serve(d, GET_OPERATION).1.payload;
    assert forall i :: 0 <= i < |report| ==> report[i] > NAK;
    if d.fan.Some? {
      var level := d.fan.value;
      assert level == 1 || level == 2 || level == 3 || level == 4 || level == 5 || level == 6;
    }
  }

  /** The mode byte of a report in the kernel's terms: 0x30 and 0x37 are Auto and name the
      direction the unit runs in. */
  lemma ModeByteMeans(response: seq<byte>)
    requires |response| >= 6 && response[0] == 0x47 && response[1] == 0x31
    ensures ParseOperation(response).Ok?
    ensures var op, b := ParseOperation(response).value, response[3];
            && op.onOff == (response[2] != 0x30)
            && FromS21Mode(op.mode) == (if b == 0x32 || b == 0x33 || b == 0x34 || b == 0x36
                                        then ModeNumbered(b).value else OperationalMode.Auto)
            && DirectionHint(op.mode) == (if b == 0x30 then Some(Cooling)
                                          else if b == 0x37 then Some(Heating) else None)
  {
  }

  /** Anything but a G1 report is an error. */
  lemma OtherReportsRefused(response: seq<byte>)
    requires |response| >= 6
    ensures ParseOperation(response).Err? <==> response[0] != 0x47 || response[1] != 0x31
  {
  }

  /** The round trip: any command the bridge composes in range, taken by the unit, reported
      in a framed reply and cut off the line, comes back with the same power, mode and fan
      and the quantised setpoint. */
  lemma WireRoundTrip(d: Unit, on: bool, m: OperationalMode, setpoint: int16, fan: FanSpeed, tail: seq<byte>)
    requires InRange(setpoint)
    ensures var op := Command(on, ToS21Mode(m), setpoint, ToS21Fan(fan));
            && SetOperationPayload(op).Ok?
            && var after := Serve(d, SetOperationPayload(op).value).0;
            && Serve(after, GET_OPERATION).1.Reports?
            && var report := Serve(after, GET_OPERATION).1.payload;
            && |report| == 6
            && var rx := Cut(Reply(report, tail), {ETX, NAK}, RX_BUFFER);
            && rx != [] && Answer(rx) == Ok(report)
            && ParseOperation(report) == Ok(Carried(op))
  {
    CommandObeyed(d, on, m, setpoint, fan);
    StepsFromEighteen(setpoint);
    var after := Serve(d, SetOperationPayload(Command(on, ToS21Mode(m), setpoint, ToS21Fan(fan))).value).0;
    ReportRead(after);
    StreamRoundTrip(Serve(after, GET_OPERATION).1.payload, tail);
  }

  /** The command over the line: a send of its payload, from any state with a free lock and
      whatever the hardware does, puts a frame on the line that makes the unit do what was
      asked. */
  lemma SendCommands(
      u: Link, d: Unit, on: bool, m: OperationalMode, setpoint: int16, fan: FanSpeed,
      es: seq<Events>, rx: seq<byte>, tail: seq<LinkStep>)
    requires ExactlyOnce(u) && u.op == NoOp && |rx| <= RX_BUFFER && EndsReception(es) && NoCompletion(tail)
    requires 1000 <= setpoint <= 3200
    ensures var payload := SetOperationPayload(Command(on, ToS21Mode(m), setpoint, ToS21Fan(fan)));
            && payload.Ok?
            && var sent := Complete(Exchanged(u, Send, payload.value, es, rx, tail)).ledger.sent;
            && |sent| == |u.ledger.sent| + 1
            && var heard := Unframed(sent[|u.ledger.sent|]);
            && heard.Ok? && Serve(d, heard.value) == (Serve(d, payload.value).0, Obeys)
            && Serve(d, heard.value).0.(halfDegrees := 0) == Unit(on, m, 0, fan)
  {
    hide Exchanged, Unframed, Complete;
    var payload := SetOperationPayload(Command(on, ToS21Mode(m), setpoint, ToS21Fan(fan))).value;
    CommandObeyed(d, on, m, setpoint, fan);
    ExchangeTransmits(u, Send, payload, es, rx, tail);
  }
}
