/** Conversions between the six discrete fan levels and the Matter FanControl
    cluster's speed, percent and coarse-mode representations. */
module FanMapping {
  import opened MachineInts
  import opened Options

  const FAN_SPEED_MAX: byte := 6

  /** Quiet, Low, MidLow, Medium, MidHigh, High. */
  type FanLevel = x: int | 1 <= x <= 6 witness 1

  /** None is Auto. */
  type FanSpeed = Option<FanLevel>

  datatype FanModeCategory = Off | Low | Medium | High | Auto

  /** Applied to 0 as well, for a unit that is switched off. */
  function SpeedLevelToPercent(level: byte): (percent: byte)
    requires level <= FAN_SPEED_MAX
    ensures percent <= 100
  {
    level * 100 / FAN_SPEED_MAX
  }

  function PercentToSpeedLevel(percent: byte): FanLevel {
    var raw := (FAN_SPEED_MAX * percent + 99) / 100;
    if raw < 1 then 1 else if raw > FAN_SPEED_MAX then 6 else raw
  }

  function FanModeOf(fan: FanSpeed): FanModeCategory {
    match fan
    case None => FanModeCategory.Auto
    case Some(level) =>
      if level <= 2 then FanModeCategory.Low
      else if level <= 4 then FanModeCategory.Medium
      else FanModeCategory.High
  }

  /** The percent remembered for a speed that did not come as a percent. */
  function DerivedPercent(fan: FanSpeed): Option<byte> {
    match fan
    case None => None
    case Some(level) => Some(SpeedLevelToPercent(level))
  }

  /** The speed a remembered percent stands for. */
  function LevelOf(percent: Option<byte>): FanSpeed {
    match percent
    case None => None
    case Some(p) => Some(PercentToSpeedLevel(p))
  }

  /** Percent to level is the Percent Rule ceil(SpeedMax * percent / 100) of section
      4.4.6.3.1 of the Matter 1.5 Application Cluster Specification: the least level
      whose share of SpeedMax is not below the percent. */
  lemma PercentRule(percent: byte, level: FanLevel)
    requires 1 <= percent <= 100
    ensures PercentToSpeedLevel(percent) == level <==>
            (level - 1) * 100 < FAN_SPEED_MAX * percent <= level * 100
  {
  }

  /** Deriving a percent from a speed and mapping it back is the identity, so the
      Speed Rule of section 4.4.6.6.1 loses nothing. */
  lemma LevelSurvivesPercent(fan: FanSpeed)
    ensures LevelOf(DerivedPercent(fan)) == fan
  {
  }

  /** The other trip snaps a percent to the end of its level's range, and the ranges
      of the six levels partition 1..100. */
  lemma PercentThroughLevel(percent: byte)
    requires 1 <= percent <= 100
    ensures var level := PercentToSpeedLevel(percent);
            SpeedLevelToPercent(level - 1) < percent <= SpeedLevelToPercent(level)
  {
  }
}
