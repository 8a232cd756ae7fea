/** The cluster attributes subscribers see, and which of them a step must report. */
module Projector {
  import opened AcTypes
  import opened FanMapping
  import opened Kernel
  import opened MachineInts
  import opened Options
  import opened TwinFields

  datatype Projection = Projection(
    onOff: bool,
    mode: OperationalMode,
    heatingSetpoint: int16,
    coolingSetpoint: int16,
    runningMode: RunningMode,
    localTemperature: Option<int16>,
    outdoorTemperature: Option<int16>,
    setpointSource: Source,
    speedSetting: Option<byte>,
    fanMode: FanModeCategory,
    speedCurrent: byte,
    percentSetting: Option<byte>,
    percentCurrent: byte,
    humidity: Option<int>,
    reachable: bool)

  function ProjectedSpeed(ac: AcState): Option<byte> {
    match ac.fan.Projected()
    case None => None
    case Some(level) => Some(level)
  }

  /** The indication while in Auto is the middle of the range. */
  function ProjectedSpeedCurrent(ac: AcState): (speed: byte)
    ensures speed <= FAN_SPEED_MAX
  {
    if ac.onOff.Projected() then ac.fan.Projected().UnwrapOr(3) else 0
  }

  /** In Auto the two setpoints are the edges of a band around one device target. */
  function Project(cfg: Config, ac: AcState): Projection {
    var on := ac.onOff.Projected();
    var mode := ac.mode.Projected();
    Projection(
      on,
      mode,
      if mode == OperationalMode.Auto then ToInt16(ac.auto.Projected() - cfg.halfWidth) else ac.heat.Projected(),
      if mode == OperationalMode.Auto then ToInt16(ac.auto.Projected() + cfg.halfWidth) else ac.cool.Projected(),
      if on then ac.runningMode else RunningMode.Off,
      ac.indoor,
      ac.outdoor,
      ac.ActiveSetpoint(ac.mode.observed).attribution,
      if on then ProjectedSpeed(ac) else Some(0),
      if on then FanModeOf(ac.fan.Projected()) else FanModeCategory.Off,
      ProjectedSpeedCurrent(ac),
      if on then ac.fanPercent else Some(0),
      SpeedLevelToPercent(ProjectedSpeedCurrent(ac)),
      match ac.humidity { case None => None case Some(h) => Some(h * 100) },
      ac.reachable)
  }

  // ----- What a subscriber reads -----

  datatype Attribute =
    | OnOff
    | SystemMode
    | OccupiedHeatingSetpoint
    | OccupiedCoolingSetpoint
    | RunningModeAttribute
    | LocalTemperature
    | OutdoorTemperature
    | SetpointSource
    | SpeedSetting
    | FanModeAttribute
    | SpeedCurrent
    | PercentSetting
    | PercentCurrent
    | Humidity
    | Reachable

  /** The Matter SystemMode enumeration, which folds power into the mode. */
  datatype SystemModeValue = SystemOff | SystemOn(mode: OperationalMode)

  function ToMatterSystemMode(onOff: bool, mode: OperationalMode): SystemModeValue {
    if onOff then SystemOn(mode) else SystemOff
  }

  datatype Reading =
    | Flag(flag: bool)
    | System(system: SystemModeValue)
    | Setpoint(setpoint: int16)
    | Running(running: RunningMode)
    | Temperature(temperature: Option<int16>)
    | Provenance(source: Source)
    | Setting(setting: Option<byte>)
    | Category(category: FanModeCategory)
    | Level(level: byte)
    | CentiPercent(centiPercent: Option<int>)

  /** The answer to a read of one attribute. */
  function Read(p: Projection, a: Attribute): Reading {
    match a
    case OnOff => Flag(p.onOff)
    case SystemMode => System(ToMatterSystemMode(p.onOff, p.mode))
    case OccupiedHeatingSetpoint => Setpoint(p.heatingSetpoint)
    case OccupiedCoolingSetpoint => Setpoint(p.coolingSetpoint)
    case RunningModeAttribute => Running(p.runningMode)
    case LocalTemperature => Temperature(p.localTemperature)
    case OutdoorTemperature => Temperature(p.outdoorTemperature)
    case SetpointSource => Provenance(p.setpointSource)
    case SpeedSetting => Setting(p.speedSetting)
    case FanModeAttribute => Category(p.fanMode)
    case SpeedCurrent => Level(p.speedCurrent)
    case PercentSetting => Setting(p.percentSetting)
    case PercentCurrent => Level(p.percentCurrent)
    case Humidity => CentiPercent(p.humidity)
    case Reachable => Flag(p.reachable)
  }

  /** SystemMode is reported when either half of it changed; every other attribute
      when the answer to a read of it changed. */
  predicate Changed(before: Projection, after: Projection, a: Attribute) {
    if a == SystemMode then before.onOff != after.onOff || before.mode != after.mode
    else Read(before, a) != Read(after, a)
  }

  const ATTRIBUTES: nat := 15

  /** The stable reporting order. */
  function Position(a: Attribute): (i: nat)
    ensures i < ATTRIBUTES
  {
    match a
    case OnOff => 0
    case SystemMode => 1
    case OccupiedHeatingSetpoint => 2
    case OccupiedCoolingSetpoint => 3
    case RunningModeAttribute => 4
    case LocalTemperature => 5
    case OutdoorTemperature => 6
    case SetpointSource => 7
    case SpeedSetting => 8
    case FanModeAttribute => 9
    case SpeedCurrent => 10
    case PercentSetting => 11
    case PercentCurrent => 12
    case Humidity => 13
    case Reachable => 14
  }

  /** The report names, in order and once each, exactly the changed attributes among
      the first n. */
  ghost predicate ReportsFirst(before: Projection, after: Projection, out: seq<Attribute>, n: nat) {
    && (forall i, j :: 0 <= i < j < |out| ==> Position(out[i]) < Position(out[j]))
    && (forall a :: a in out <==> Position(a) < n && Changed(before, after, a))
  }

  /** The report of a whole step. */
  ghost predicate Reports(before: Projection, after: Projection, out: seq<Attribute>) {
    ReportsFirst(before, after, out, ATTRIBUTES)
  }

  method Emit(ghost before: Projection, ghost after: Projection, out: seq<Attribute>, a: Attribute, changed: bool)
    returns (more: seq<Attribute>)
    requires ReportsFirst(before, after, out, Position(a))
    requires changed == Changed(before, after, a)
    ensures ReportsFirst(before, after, more, Position(a) + 1)
  {
    more := out;
    if changed {
      more := more + [a];
    }
    forall b | Position(b) == Position(a)
      ensures b == a
    {
    }
  }

  /** The comparison as the bridge makes it: field by field, with one flag so that a
      power change and a mode change report SystemMode once. */
  method DiffProjections(before: Projection, after: Projection) returns (out: seq<Attribute>)
    ensures Reports(before, after, out)
  {
    out := DiffPowerAndMode(before, after);
    out := DiffThermostat(before, after, out);
    out := DiffFan(before, after, out);
    out := DiffPercent(before, after, out);
    out := Emit(before, after, out, Humidity, before.humidity != after.humidity);
    out := Emit(before, after, out, Reachable, before.reachable != after.reachable);
  }

  method DiffPowerAndMode(before: Projection, after: Projection) returns (out: seq<Attribute>)
    ensures ReportsFirst(before, after, out, Position(OccupiedHeatingSetpoint))
  {
    out := [];
    var systemModeEmitted := false;
    if before.onOff != after.onOff {
      out := out + [OnOff];
      if !systemModeEmitted {
        out := out + [SystemMode];
        systemModeEmitted := true;
      }
    }
    if before.mode != after.mode {
      if !systemModeEmitted {
        out := out + [SystemMode];
        systemModeEmitted := true;
      }
    }
    assert forall a :: Position(a) < 2 <==> a == OnOff || a == SystemMode;
  }

  method DiffThermostat(before: Projection, after: Projection, soFar: seq<Attribute>) returns (out: seq<Attribute>)
    requires ReportsFirst(before, after, soFar, Position(OccupiedHeatingSetpoint))
    ensures ReportsFirst(before, after, out, Position(SpeedSetting))
  {
    out := Emit(before, after, soFar, OccupiedHeatingSetpoint, before.heatingSetpoint != after.heatingSetpoint);
    out := Emit(before, after, out, OccupiedCoolingSetpoint, before.coolingSetpoint != after.coolingSetpoint);
    out := Emit(before, after, out, RunningModeAttribute, before.runningMode != after.runningMode);
    out := Emit(before, after, out, LocalTemperature, before.localTemperature != after.localTemperature);
    out := Emit(before, after, out, OutdoorTemperature, before.outdoorTemperature != after.outdoorTemperature);
    out := Emit(before, after, out, SetpointSource, before.setpointSource != after.setpointSource);
  }

  method DiffFan(before: Projection, after: Projection, soFar: seq<Attribute>) returns (out: seq<Attribute>)
    requires ReportsFirst(before, after, soFar, Position(SpeedSetting))
    ensures ReportsFirst(before, after, out, Position(PercentSetting))
  {
    out := Emit(before, after, soFar, SpeedSetting, before.speedSetting != after.speedSetting);
    out := Emit(before, after, out, FanModeAttribute, before.fanMode != after.fanMode);
    out := Emit(before, after, out, SpeedCurrent, before.speedCurrent != after.speedCurrent);
  }

  method DiffPercent(before: Projection, after: Projection, soFar: seq<Attribute>) returns (out: seq<Attribute>)
    requires ReportsFirst(before, after, soFar, Position(PercentSetting))
    ensures ReportsFirst(before, after, out, Position(Humidity))
  {
    out := Emit(before, after, soFar, PercentSetting, before.percentSetting != after.percentSetting);
    out := Emit(before, after, out, PercentCurrent, before.percentCurrent != after.percentCurrent);
  }
}
