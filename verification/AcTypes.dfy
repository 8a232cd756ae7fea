/** The values that cross the bridge: device modes, commands, polls and controller writes. */
module AcTypes {
  import opened FanMapping
  import opened MachineInts
  import opened Options

  datatype OperationalMode = Auto | Cool | Heat | Dry | FanOnly

  datatype RunningMode = Off | Cooling | Heating

  /** The mode byte on the S21 wire. The firmware casts any received byte to its
      enumeration, so a byte that names no mode is a value too. */
  datatype S21Mode =
    | AutoCooling
    | AutoHeating
    | Auto
    | Dry
    | Cool
    | Heat
    | FanOnly
    | Unnamed(raw: byte)

  /** The fan byte on the S21 wire, with the same remark. */
  datatype S21Fan =
    | Auto
    | Quiet
    | Low
    | MidLow
    | Medium
    | MidHigh
    | High
    | Unnamed(raw: byte)

  datatype Command = Command(onOff: bool, mode: S21Mode, setpoint: int16, fan: S21Fan)

  datatype OperationalPoll = OperationalPoll(
    onOff: bool,
    mode: S21Mode,
    setpoint: int16,
    fan: S21Fan,
    valveOpen: Option<bool>)

  datatype EnvironmentalPoll = EnvironmentalPoll(indoor: int16, outdoor: int16, humidity: byte)

  /** A controller's write. The system-mode write carries power and mode together. */
  datatype WriteIntent =
    | SetOnOff(on: bool)
    | SetSystemMode(power: bool, mode: OperationalMode)
    | SetHeatingSetpoint(value: int16)
    | SetCoolingSetpoint(value: int16)
    | SetSpeed(speed: FanSpeed)
    | SetPercent(percent: Option<byte>)

  function ToS21Mode(m: OperationalMode): S21Mode {
    match m
    case Cool => S21Mode.Cool
    case Heat => S21Mode.Heat
    case Dry => S21Mode.Dry
    case FanOnly => S21Mode.FanOnly
    case Auto => S21Mode.Auto
  }

  function FromS21Mode(m: S21Mode): OperationalMode {
    match m
    case Cool => OperationalMode.Cool
    case Heat => OperationalMode.Heat
    case Dry => OperationalMode.Dry
    case FanOnly => OperationalMode.FanOnly
    case _ => OperationalMode.Auto
  }

  /** What the unit does right now, when the mode byte alone says so. */
  function DirectionHint(m: S21Mode): Option<RunningMode> {
    match m
    case AutoCooling => Some(Cooling)
    case AutoHeating => Some(Heating)
    case _ => None
  }

  function ToS21Fan(fan: FanSpeed): S21Fan {
    match fan
    case None => S21Fan.Auto
    case Some(level) =>
      [S21Fan.Quiet, S21Fan.Low, S21Fan.MidLow, S21Fan.Medium, S21Fan.MidHigh, S21Fan.High][level - 1]
  }

  function FromS21Fan(fan: S21Fan): FanSpeed {
    match fan
    case Quiet => Some(1)
    case Low => Some(2)
    case MidLow => Some(3)
    case Medium => Some(4)
    case MidHigh => Some(5)
    case High => Some(6)
    case _ => None
  }

  /** A command read back from the wire means what the controller asked for. */
  lemma DeviceEnumsRoundTrip(m: OperationalMode, fan: FanSpeed)
    ensures FromS21Mode(ToS21Mode(m)) == m
    ensures FromS21Fan(ToS21Fan(fan)) == fan
  {
  }
}
