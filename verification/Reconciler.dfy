/** The reconciler as the firmware runs it: twins updated in place, one call per
    write, poll or command notification. Every method is proved to take the kernel's
    state machine through exactly one step and to report exactly what changed. */
module Reconciler {
  import opened AcTypes
  import opened FanMapping
  import opened Kernel
  import opened MachineInts
  import opened Options
  import opened Projector
  import opened TwinFields

  class LogicalAcState {
    const onOff: TwinField<bool>
    const mode: TwinField<OperationalMode>
    const heat: TwinField<int16>
    const cool: TwinField<int16>
    const auto: TwinField<int16>
    const fan: TwinField<FanSpeed>
    var fanPercent: Option<byte>
    var runningMode: RunningMode
    var indoor: Option<int16>
    var outdoor: Option<int16>
    var humidity: Option<byte>
    var valveOpen: Option<bool>
    var reachable: bool

    ghost predicate Valid() {
      heat != cool && heat != auto && cool != auto
    }

    ghost function Footprint(): set<object> {
      {this, onOff, mode, heat, cool, auto, fan}
    }

    /** A copy of the whole state; reads and reports are computed from it. */
    function View(): AcState
      reads this, onOff, mode, heat, cool, auto, fan
    {
      AcState(onOff.View(), mode.View(), heat.View(), cool.View(), auto.View(), fan.View(), fanPercent,
              runningMode, indoor, outdoor, humidity, valveOpen, reachable)
    }

    constructor ()
      ensures Valid() && fresh(Footprint())
      ensures View() == BootState().ac
    {
      onOff := new TwinField(false);
      mode := new TwinField(OperationalMode.Auto);
      heat := new TwinField(2000);
      cool := new TwinField(2500);
      auto := new TwinField(2200);
      fan := new TwinField(None);
      fanPercent := None;
      runningMode := RunningMode.Off;
      indoor, outdoor, humidity, valveOpen := None, None, None, None;
      reachable := false;
    }
  }

  datatype OperationalChange = OperationalChange(dirtyAttributes: seq<Attribute>, sendCommand: Option<Command>)

  class Reconciler {
    const state: LogicalAcState
    const cfg: Config
    var stamps: Stamps
    var lastSent: Option<Command>

    ghost predicate Valid() {
      state.Valid()
    }

    ghost function Footprint(): set<object> {
      {this} + state.Footprint()
    }

    ghost function View(): KernelState
      reads this, state, state.onOff, state.mode, state.heat, state.cool, state.auto, state.fan
    {
      KernelState(state.View(), stamps, lastSent)
    }

    constructor (state: LogicalAcState, cfg: Config)
      requires state.Valid()
      ensures Valid() && this.state == state && this.cfg == cfg
      ensures View() == KernelState(state.View(), Stamps(0, 0, 0, 0, 0, 0), None)
    {
      this.state := state;
      this.cfg := cfg;
      stamps := Stamps(0, 0, 0, 0, 0, 0);
      lastSent := None;
    }

    // ----- Controller writes -----

    method ApplySetOnOff(now: int, on: bool)
      requires Valid()
      modifies state.onOff
      ensures View() == WriteOnOff(cfg, now, old(View()), on)
    {
      if !PassesGuard(cfg, now, stamps.onOff, on != state.onOff.observed) {
        return;
      }
      state.onOff.SetDesired(on);
    }

    method ApplySetSystemMode(now: int, power: bool, mode: OperationalMode)
      requires Valid()
      modifies state.onOff, state.mode
      ensures View() == WriteSystemMode(cfg, now, old(View()), power, mode)
    {
      if PassesGuard(cfg, now, stamps.onOff, power != state.onOff.observed) {
        state.onOff.SetDesired(power);
      }
      if power && PassesGuard(cfg, now, stamps.mode, mode != state.mode.observed) {
        state.mode.SetDesired(mode);
      }
    }

    method ApplySetHeatingSetpoint(now: int, value: int16)
      requires Valid()
      modifies state.heat, state.auto
      ensures View() == WriteHeat(cfg, now, old(View()), value)
    {
      match state.mode.observed {
        case Heat =>
          if !PassesGuard(cfg, now, stamps.heat, value != state.heat.observed) {
            return;
          }
          state.heat.SetDesired(value);
        case Auto =>
          var projectedCool := ToInt16(state.auto.desired + cfg.halfWidth);
          var newCentre := ToInt16(TruncDiv(projectedCool + value, 2));
          if !PassesGuard(cfg, now, stamps.auto, newCentre != state.auto.observed) {
            return;
          }
          state.auto.SetDesired(newCentre);
        case _ =>
          state.heat.SetDesired(value);
      }
    }

    method ApplySetCoolingSetpoint(now: int, value: int16)
      requires Valid()
      modifies state.cool, state.auto
      ensures View() == WriteCool(cfg, now, old(View()), value)
    {
      match state.mode.observed {
        case Cool =>
          if !PassesGuard(cfg, now, stamps.cool, value != state.cool.observed) {
            return;
          }
          state.cool.SetDesired(value);
        case Auto =>
          var projectedHeat := ToInt16(state.auto.desired - cfg.halfWidth);
          var newCentre := ToInt16(TruncDiv(value + projectedHeat, 2));
          if !PassesGuard(cfg, now, stamps.auto, newCentre != state.auto.observed) {
            return;
          }
          state.auto.SetDesired(newCentre);
        case _ =>
          state.cool.SetDesired(value);
      }
    }

    method PowerOnForFanWrite(now: int)
      requires Valid()
      modifies state.onOff
      ensures View() == PowerOnForFan(cfg, now, old(View()))
    {
      if state.onOff.observed {
        return;
      }
      if !PassesGuard(cfg, now, stamps.onOff, true) {
        return;
      }
      state.onOff.SetDesired(true);
    }

    method ApplySetSpeed(now: int, speed: FanSpeed)
      requires Valid()
      modifies state, state.onOff, state.fan
      ensures View() == ApplyIntent(cfg, now, old(View()), SetSpeed(speed))
    {
      if !PassesGuard(cfg, now, stamps.fan, speed != state.fan.observed) {
        return;
      }
      PowerOnForFanWrite(now);
      state.fan.SetDesired(speed);
      state.fanPercent := if speed.Some? then Some(SpeedLevelToPercent(speed.value)) else None;
    }

    method ApplySetPercent(now: int, percent: Option<byte>)
      requires Valid()
      modifies state, state.onOff, state.fan
      ensures View() == ApplyIntent(cfg, now, old(View()), SetPercent(percent))
    {
      if percent.None? {
        return;
      }
      var fan := Some(PercentToSpeedLevel(percent.value));
      if !PassesGuard(cfg, now, stamps.fan, fan != state.fan.observed) {
        return;
      }
      PowerOnForFanWrite(now);
      state.fan.SetDesired(fan);
      state.fanPercent := percent;
    }

    method Apply(now: int, i: WriteIntent)
      requires Valid()
      modifies Footprint() - {this}
      ensures View() == ApplyIntent(cfg, now, old(View()), i)
    {
      match i {
        case SetOnOff(on) => ApplySetOnOff(now, on);
        case SetSystemMode(power, mode) => ApplySetSystemMode(now, power, mode);
        case SetHeatingSetpoint(value) => ApplySetHeatingSetpoint(now, value);
        case SetCoolingSetpoint(value) => ApplySetCoolingSetpoint(now, value);
        case SetSpeed(speed) => ApplySetSpeed(now, speed);
        case SetPercent(percent) => ApplySetPercent(now, percent);
      }
    }

    method ApplyWrite(now: int, i: WriteIntent) returns (change: OperationalChange)
      requires Valid()
      modifies Footprint() - {this}
      ensures View() == ApplyIntent(cfg, now, old(View()), i)
      ensures Reports(Project(cfg, old(View()).ac), Project(cfg, View().ac), change.dirtyAttributes)
      ensures change.sendCommand == PendingCommand(View())
    {
      var before := Project(cfg, state.View());
      Apply(now, i);
      var after := Project(cfg, state.View());
      var dirty := DiffProjections(before, after);
      var cmd := NextCommand();
      change := OperationalChange(dirty, cmd);
    }

    // ----- Bundles -----

    method ApplyWriteBundle(now: int, xs: seq<WriteIntent>) returns (change: OperationalChange)
      requires Valid()
      modifies Footprint() - {this}
      ensures View() == ApplyBundle(cfg, now, old(View()), xs)
      ensures Reports(Project(cfg, old(View()).ac), Project(cfg, View().ac), change.dirtyAttributes)
      ensures change.sendCommand == PendingCommand(View())
    {
      var before := Project(cfg, state.View());
      var lastHeat, lastCool := FindLastEdges(xs);
      var collapse := state.mode.observed == OperationalMode.Auto && lastHeat.Some? && lastCool.Some?;
      if collapse {
        var newCentre := Midpoint(lastHeat.value, lastCool.value);
        if PassesGuard(cfg, now, stamps.auto, newCentre != state.auto.observed) {
          state.auto.SetDesired(newCentre);
        }
      }
      ApplyEach(now, xs, collapse);
      var after := Project(cfg, state.View());
      var dirty := DiffProjections(before, after);
      var cmd := NextCommand();
      change := OperationalChange(dirty, cmd);
    }

    static method FindLastEdges(xs: seq<WriteIntent>) returns (lastHeat: Option<int16>, lastCool: Option<int16>)
      ensures lastHeat == LastHeat(xs) && lastCool == LastCool(xs)
    {
      lastHeat, lastCool := None, None;
      for n := 0 to |xs|
        invariant lastHeat == LastHeat(xs[..n]) && lastCool == LastCool(xs[..n])
      {
        assert xs[..n + 1][..n] == xs[..n];
        if xs[n].SetHeatingSetpoint? {
          lastHeat := Some(xs[n].value);
        }
        if xs[n].SetCoolingSetpoint? {
          lastCool := Some(xs[n].value);
        }
      }
      assert xs[..|xs|] == xs;
    }

    method ApplyEach(now: int, xs: seq<WriteIntent>, skipEdges: bool)
      requires Valid()
      modifies Footprint() - {this}
      ensures View() == ApplyAll(cfg, now, old(View()), if skipEdges then NonEdges(xs) else xs)
    {
      ghost var start := View();
      for n := 0 to |xs|
        invariant View() == ApplyAll(cfg, now, start, if skipEdges then NonEdges(xs[..n]) else xs[..n])
      {
        assert xs[..n + 1][..n] == xs[..n];
        if skipEdges && IsEdge(xs[n]) {
          continue;
        }
        ghost var done := if skipEdges then NonEdges(xs[..n]) else xs[..n];
        assert (done + [xs[n]])[..|done|] == done;
        assert !skipEdges ==> xs[..n + 1] == done + [xs[n]];
        Apply(now, xs[n]);
      }
      assert xs[..|xs|] == xs;
    }

    // ----- Polls -----

    method ApplyOperationalObservation(now: int, obs: OperationalPoll) returns (change: OperationalChange)
      requires Valid()
      modifies Footprint()
      ensures View() == ApplyPoll(cfg, now, old(View()), obs)
      ensures Reports(Project(cfg, old(View()).ac), Project(cfg, View().ac), change.dirtyAttributes)
      ensures change.sendCommand == PendingCommand(View())
    {
      var before := Project(cfg, state.View());
      Observe(now, obs);
      var after := Project(cfg, state.View());
      var dirty := DiffProjections(before, after);
      var cmd := NextCommand();
      change := OperationalChange(dirty, cmd);
    }

    method Observe(now: int, obs: OperationalPoll)
      requires Valid()
      modifies Footprint()
      ensures View() == ApplyPoll(cfg, now, old(View()), obs)
    {
      hide FromS21Mode, FromS21Fan, Twin.Observing;
      ObserveTwins(now, obs);
      ObserveFan(now, obs);
      state.valveOpen := obs.valveOpen;
      var running := Fuse(obs.onOff, obs.mode, obs.valveOpen);
      state.runningMode := running;
      state.reachable := true;
    }

    method ObserveTwins(now: int, obs: OperationalPoll)
      requires Valid()
      modifies this`stamps, state.onOff, state.mode, state.heat, state.cool, state.auto
      ensures var mode := FromS21Mode(obs.mode);
              View() == old(View()).(
                ac := ObserveSetpoint(old(state.View()), mode, obs.setpoint).(
                  onOff := old(state.onOff.View()).Observing(obs.onOff, Device),
                  mode := old(state.mode.View()).Observing(mode, Device)),
                stamps := StampPoll(old(stamps), mode, now).(fan := old(stamps).fan))
    {
      state.onOff.ApplyObservation(obs.onOff, Device);
      var observedMode := FromS21Mode(obs.mode);
      state.mode.ApplyObservation(observedMode, Device);
      stamps := stamps.(onOff := now, mode := now);
      ObserveActiveSetpoint(now, observedMode, obs.setpoint);
    }

    method ObserveActiveSetpoint(now: int, mode: OperationalMode, setpoint: int16)
      requires Valid()
      modifies this`stamps, state.heat, state.cool, state.auto
      ensures View() == old(View()).(
                ac := ObserveSetpoint(old(state.View()), mode, setpoint),
                stamps := StampPoll(old(stamps), mode, now).(
                  onOff := old(stamps).onOff, mode := old(stamps).mode, fan := old(stamps).fan))
    {
      match mode {
        case Cool =>
          state.cool.ApplyObservation(setpoint, Device);
          stamps := stamps.(cool := now);
        case Heat =>
          state.heat.ApplyObservation(setpoint, Device);
          stamps := stamps.(heat := now);
        case Auto =>
          state.auto.ApplyObservation(setpoint, Device);
          stamps := stamps.(auto := now);
        case _ =>
      }
    }

    method ObserveFan(now: int, obs: OperationalPoll)
      requires Valid()
      modifies this`stamps, state`fanPercent, state.fan
      ensures var fan := old(state.fan.View()).Observing(FromS21Fan(obs.fan), Device);
              View() == old(View()).(
                ac := old(state.View()).(fan := fan, fanPercent := PercentAfterPoll(old(state.View()), fan)),
                stamps := old(stamps).(fan := now))
    {
      var fanObservedBefore := state.fan.observed;
      state.fan.ApplyObservation(FromS21Fan(obs.fan), Device);
      stamps := stamps.(fan := now);
      if state.fan.observed != fanObservedBefore && state.fan.attribution == Device {
        state.fanPercent :=
          if state.fan.observed.Some? then Some(SpeedLevelToPercent(state.fan.observed.value)) else None;
      }
    }

    method Fuse(onOff: bool, mode: S21Mode, valve: Option<bool>) returns (running: RunningMode)
      ensures running == FuseRunningMode(cfg, state.View(), onOff, mode, valve)
    {
      if !onOff {
        return RunningMode.Off;
      }
      var hint := DirectionHint(mode);
      if hint.Some? {
        return hint.value;
      }
      var opMode := FromS21Mode(mode);
      if valve.Some? && !valve.value {
        return RunningMode.Off;
      }
      if valve.Some? && valve.value {
        match opMode {
          case Cool => return Cooling;
          case Heat => return Heating;
          case Auto =>
            var isHeating := state.indoor.Some? && state.indoor.value < state.auto.observed;
            return if isHeating then Heating else Cooling;
          case _ => return RunningMode.Off;
        }
      }
      if state.indoor.None? {
        return RunningMode.Off;
      }
      var indoor, hyst := state.indoor.value, cfg.hysteresis;
      match opMode {
        case Cool => return if state.cool.observed + hyst >= indoor then RunningMode.Off else Cooling;
        case Heat => return if state.heat.observed - hyst <= indoor then RunningMode.Off else Heating;
        case Auto =>
          if indoor > state.auto.observed + hyst {
            return Cooling;
          }
          if indoor < state.auto.observed - hyst {
            return Heating;
          }
          return RunningMode.Off;
        case _ => return RunningMode.Off;
      }
    }

    method ApplyEnvironmentalObservation(obs: EnvironmentalPoll) returns (dirtyAttributes: seq<Attribute>)
      requires Valid()
      modifies state
      ensures View() == ApplyEnvironment(old(View()), obs)
      ensures Reports(Project(cfg, old(View()).ac), Project(cfg, View().ac), dirtyAttributes)
    {
      var before := Project(cfg, state.View());
      state.indoor := Some(obs.indoor);
      state.outdoor := Some(obs.outdoor);
      state.humidity := Some(obs.humidity);
      var after := Project(cfg, state.View());
      dirtyAttributes := DiffProjections(before, after);
    }

    method NotifyLinkDown()
      requires Valid()
      modifies state
      ensures View() == LinkDown(old(View()))
    {
      state.reachable := false;
    }

    // ----- Commands -----

    method NextCommand() returns (cmd: Option<Command>)
      requires Valid()
      ensures cmd == PendingCommand(View())
    {
      var onOff := state.onOff.Dirty();
      var mode := state.mode.Dirty();
      var heat := state.heat.Dirty();
      var cool := state.cool.Dirty();
      var auto := state.auto.Dirty();
      var fan := state.fan.Dirty();
      if !(onOff || mode || heat || cool || auto || fan) {
        return None;
      }
      var setpoint := match state.mode.desired {
        case Cool => state.cool.desired
        case Heat => state.heat.desired
        case _ => state.auto.desired
      };
      var next := Command(state.onOff.desired, ToS21Mode(state.mode.desired), setpoint, ToS21Fan(state.fan.desired));
      if lastSent.Some? && lastSent.value == next {
        return None;
      }
      return Some(next);
    }

    method OnCommandSent(cmd: Command)
      requires Valid()
      modifies Footprint()
      ensures View() == CommandSent(old(View()), cmd)
    {
      lastSent := Some(cmd);
      state.onOff.PromoteDesiredToInFlight();
      state.mode.PromoteDesiredToInFlight();
      match state.mode.desired {
        case Cool => state.cool.PromoteDesiredToInFlight();
        case Heat => state.heat.PromoteDesiredToInFlight();
        case Auto => state.auto.PromoteDesiredToInFlight();
        case _ =>
      }
      state.fan.PromoteDesiredToInFlight();
    }

    method OnCommandFailed()
      requires Valid()
      modifies this
      ensures View() == CommandFailed(old(View()))
    {
      lastSent := None;
    }
  }
}
